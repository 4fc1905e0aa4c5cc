/** Assembling tool calls that a chat stream delivers in fragments, and what the stream finally emits. */
module ChatStream {
  import opened Options
  import EventStream

  /** A fragment of the tool call at `index`; `spareId` is the random id used if the first fragment has none. */
  datatype Delta = Delta(index: int, id: Option<string>, spareId: string, name: string, arguments: string)

  datatype Ending = Open | Stop | ToolCallsReady

  datatype Chunk = Failure(message: string) | NoChoice | Choice(content: string, deltas: seq<Delta>, ending: Ending)

  datatype Partial = Partial(index: int, id: string, name: string, arguments: string)

  datatype Emission<A> =
    | Content(text: string)
    | Call(id: string, name: string, args: A)
    | Failed(message: string)
    | Finished

  /** How argument text becomes arguments: `empty` when there is none or it does not parse. */
  datatype Arguments<A> = Arguments(parse: string -> Option<A>, empty: A) {
    function Read(text: string): A {
      if text == "" then empty else parse(text).GetOr(empty)
    }
  }

  // ------------------------------------------------------------- specification: per index, over the whole stream

  function At(deltas: seq<Delta>, index: int): seq<Delta> {
    if deltas == [] then []
    else
      var last := deltas[|deltas| - 1];
      At(deltas[..|deltas| - 1], index) + (if last.index == index then [last] else [])
  }

  function Names(deltas: seq<Delta>): string {
    if deltas == [] then "" else Names(deltas[..|deltas| - 1]) + deltas[|deltas| - 1].name
  }

  function ArgumentText(deltas: seq<Delta>): string {
    if deltas == [] then "" else ArgumentText(deltas[..|deltas| - 1]) + deltas[|deltas| - 1].arguments
  }

  /** The call at an index: the id of its first fragment, and all its fragments joined in order. */
  function Assembled(deltas: seq<Delta>, index: int): Partial {
    var own := At(deltas, index);
    Partial(index, if own == [] then "" else own[0].id.GetOr(own[0].spareId), Names(own), ArgumentText(own))
  }

  /** The indices that occur, in ascending order and each once. */
  ghost predicate AscendingIndices(indices: seq<int>, deltas: seq<Delta>) {
    && (forall i, j :: 0 <= i < j < |indices| ==> indices[i] < indices[j])
    && (forall k :: k in indices <==> At(deltas, k) != [])
  }

  function CallOf<A>(p: Partial, arguments: Arguments<A>): seq<Emission<A>> {
    if p.name == "" then [] else [Call(p.id, p.name, arguments.Read(p.arguments))]
  }

  /** One call per index in ascending order, leaving out calls that never got a name. */
  ghost function CallsFor<A>(indices: seq<int>, deltas: seq<Delta>, arguments: Arguments<A>): seq<Emission<A>> {
    if indices == [] then []
    else
      var last := |indices| - 1;
      CallsFor(indices[..last], deltas, arguments) + CallOf(Assembled(deltas, indices[last]), arguments)
  }

  function Contents<A>(chunks: seq<Chunk>): seq<Emission<A>> {
    if chunks == [] then []
    else
      var last := chunks[|chunks| - 1];
      Contents(chunks[..|chunks| - 1]) + (if last.Choice? && last.content != "" then [Content(last.content)] else [])
  }

  function AllDeltas(chunks: seq<Chunk>): seq<Delta> {
    if chunks == [] then []
    else
      var last := chunks[|chunks| - 1];
      AllDeltas(chunks[..|chunks| - 1]) + (if last.Choice? then last.deltas else [])
  }

  predicate Ends(chunk: Chunk) {
    chunk.Failure? || (chunk.Choice? && chunk.ending != Open)
  }

  /** `n` chunks are read: up to the first that ends the stream, or all of them. */
  ghost predicate ReadCount(chunks: seq<Chunk>, n: nat) {
    && n <= |chunks|
    && (forall i :: 0 <= i < n - 1 ==> !Ends(chunks[i]))
    && (n < |chunks| ==> n > 0 && Ends(chunks[n - 1]))
  }

  /** Text as it came, then every assembled call once, then the end; an error chunk replaces calls and end. */
  ghost predicate Emitted<A>(chunks: seq<Chunk>, arguments: Arguments<A>, out: seq<Emission<A>>) {
    || (exists n: nat :: ReadCount(chunks, n) && FailedAfter(chunks[..n], out))
    || (exists n: nat, indices :: ReadCount(chunks, n) && FinishedAfter(chunks[..n], indices, arguments, out))
  }

  ghost predicate FailedAfter<A>(read: seq<Chunk>, out: seq<Emission<A>>) {
    && read != [] && read[|read| - 1].Failure?
    && out == Contents(read) + [Failed(read[|read| - 1].message)]
  }

  ghost predicate FinishedAfter<A>(read: seq<Chunk>, indices: seq<int>, arguments: Arguments<A>,
                                   out: seq<Emission<A>>) {
    && (read != [] ==> !read[|read| - 1].Failure?)
    && AscendingIndices(indices, AllDeltas(read))
    && out == Contents(read) + CallsFor(indices, AllDeltas(read), arguments) + [Finished]
  }

  // ------------------------------------------------------------- lemmas

  ghost predicate StrictlyAscending(ps: seq<Partial>) {
    forall i, j :: 0 <= i < j < |ps| ==> ps[i].index < ps[j].index
  }

  ghost function IndexSet(ps: seq<Partial>): set<int> {
    set i | 0 <= i < |ps| :: ps[i].index
  }

  lemma NoCalls<A>(deltas: seq<Delta>, arguments: Arguments<A>)
    ensures CallsFor([], deltas, arguments) == []
  {
  }

  lemma NextCall<A>(indices: seq<int>, deltas: seq<Delta>, arguments: Arguments<A>, i: nat)
    requires i < |indices|
    ensures CallsFor(indices[..i + 1], deltas, arguments)
         == CallsFor(indices[..i], deltas, arguments) + CallOf(Assembled(deltas, indices[i]), arguments)
  {
    assert indices[..i + 1][..i] == indices[..i];
  }

  // ------------------------------------------------------------- accumulation

  /** The partial calls hold exactly what the fragments so far assemble to, one entry per index. */
  ghost predicate Accumulated(ps: seq<Partial>, deltas: seq<Delta>) {
    && (forall i, j :: 0 <= i < j < |ps| ==> ps[i].index != ps[j].index)
    && (forall i :: 0 <= i < |ps| ==> At(deltas, ps[i].index) != [] && ps[i] == Assembled(deltas, ps[i].index))
    && (forall k :: At(deltas, k) != [] ==> k in IndexSet(ps))
  }

  /** The partial call at the index, or the end when there is none yet. */
  method FindPartial(ps: seq<Partial>, index: int) returns (at: nat)
    ensures at <= |ps| && (at < |ps| ==> ps[at].index == index)
    ensures forall j :: 0 <= j < at ==> ps[j].index != index
  {
    at := 0;
    while at < |ps| && ps[at].index != index
      invariant 0 <= at <= |ps| && forall j :: 0 <= j < at ==> ps[j].index != index
    {
      at := at + 1;
    }
  }

  method Accumulate(before: seq<Partial>, added: seq<Delta>, ghost past: seq<Delta>) returns (ps: seq<Partial>)
    requires Accumulated(before, past)
    ensures Accumulated(ps, past + added)
  {
    hide Accumulated, Absorb;
    ps := before;
    assert past + added[..0] == past;
    for i := 0 to |added|
      invariant Accumulated(ps, past + added[..i])
    {
      var d := added[i];
      var at := FindPartial(ps, d.index);
      AbsorbDelta(ps, past + added[..i], d, at);
      ps := Absorb(ps, d, at);
      assert past + added[..i + 1] == (past + added[..i]) + [d];
    }
    assert past + added[..|added|] == past + added;
  }

  lemma AtGrows(deltas: seq<Delta>, d: Delta, k: int)
    ensures At(deltas + [d], k) == At(deltas, k) + (if d.index == k then [d] else [])
  {
    assert (deltas + [d])[..|deltas|] == deltas;
  }

  lemma JoinGrows(own: seq<Delta>, d: Delta)
    ensures Names(own + [d]) == Names(own) + d.name && ArgumentText(own + [d]) == ArgumentText(own) + d.arguments
  {
    assert (own + [d])[..|own|] == own;
  }

  /** How one fragment changes what is assembled at each index. */
  lemma AssembledGrows(deltas: seq<Delta>, d: Delta, k: int)
    ensures var all := deltas + [d];
            && (k != d.index ==> At(all, k) == At(deltas, k))
            && (k != d.index ==> Assembled(all, k) == Assembled(deltas, k))
            && At(all, d.index) != []
            && (At(deltas, d.index) == [] ==>
                  Assembled(all, d.index) == Partial(d.index, d.id.GetOr(d.spareId), d.name, d.arguments))
            && (At(deltas, d.index) != [] ==>
                  var was := Assembled(deltas, d.index);
                  Assembled(all, d.index) == was.(name := was.name + d.name, arguments := was.arguments + d.arguments))
  {
    var all := deltas + [d];
    AtGrows(deltas, d, k);
    AtGrows(deltas, d, d.index);
    JoinGrows(At(deltas, d.index), d);
    JoinGrows([], d);
    assert At(deltas, d.index) == [] ==> At(all, d.index) == [] + [d];
    assert "" + d.name == d.name && "" + d.arguments == d.arguments;
  }

  function Absorb(ps: seq<Partial>, d: Delta, at: nat): (next: seq<Partial>)
    requires at <= |ps|
    ensures |next| == if at == |ps| then |ps| + 1 else |ps|
    ensures forall i :: 0 <= i < |ps| && i != at ==> next[i] == ps[i]
  {
    if at == |ps| then ps + [Partial(d.index, d.id.GetOr(d.spareId), d.name, d.arguments)]
    else ps[at := ps[at].(name := ps[at].name + d.name, arguments := ps[at].arguments + d.arguments)]
  }

  lemma AbsorbDelta(ps: seq<Partial>, deltas: seq<Delta>, d: Delta, at: nat)
    requires Accumulated(ps, deltas) && at <= |ps|
    requires forall j :: 0 <= j < at ==> ps[j].index != d.index
    requires at < |ps| ==> ps[at].index == d.index
    ensures Accumulated(Absorb(ps, d, at), deltas + [d])
  {
    hide At, Assembled, Names, ArgumentText;
    var next, all := Absorb(ps, d, at), deltas + [d];
    AssembledGrows(deltas, d, d.index);
    assert at == |ps| ==> d.index !in IndexSet(ps);
    forall i | 0 <= i < |next| ensures At(all, next[i].index) != [] && next[i] == Assembled(all, next[i].index) {
      AssembledGrows(deltas, d, next[i].index);
      if i != at {
        assert next[i] == ps[i] && ps[i].index != d.index;
      }
    }
    forall k | At(all, k) != [] ensures k in IndexSet(next) {
      AssembledGrows(deltas, d, k);
      if k == d.index {
        assert next[at].index == k;
      } else {
        var i :| 0 <= i < |ps| && ps[i].index == k;
        assert next[i].index == k;
      }
    }
  }

  // ------------------------------------------------------------- emission

  function InsertByIndex(p: Partial, sorted: seq<Partial>): seq<Partial> {
    if sorted == [] || p.index <= sorted[0].index then [p] + sorted else [sorted[0]] + InsertByIndex(p, sorted[1..])
  }

  /** The sort by index that precedes emission. */
  function SortByIndex(ps: seq<Partial>): seq<Partial> {
    if ps == [] then [] else InsertByIndex(ps[0], SortByIndex(ps[1..]))
  }

  lemma {:induction false} InsertKeeps(p: Partial, sorted: seq<Partial>)
    requires StrictlyAscending(sorted) && forall i :: 0 <= i < |sorted| ==> sorted[i].index != p.index
    ensures StrictlyAscending(InsertByIndex(p, sorted))
    ensures forall x :: x in InsertByIndex(p, sorted) <==> x == p || x in sorted
  {
    if sorted != [] && p.index > sorted[0].index {
      InsertKeeps(p, sorted[1..]);
      var rest := InsertByIndex(p, sorted[1..]);
      forall i | 0 <= i < |rest| ensures sorted[0].index < rest[i].index {
        assert rest[i] in rest;
      }
      assert sorted == [sorted[0]] + sorted[1..];
    }
  }

  lemma {:induction false} SortKeeps(ps: seq<Partial>)
    requires forall i, j :: 0 <= i < j < |ps| ==> ps[i].index != ps[j].index
    ensures StrictlyAscending(SortByIndex(ps))
    ensures forall x :: x in SortByIndex(ps) <==> x in ps
  {
    if ps != [] {
      SortKeeps(ps[1..]);
      var rest := SortByIndex(ps[1..]);
      forall i | 0 <= i < |rest| ensures rest[i].index != ps[0].index {
        assert rest[i] in ps[1..];
      }
      InsertKeeps(ps[0], rest);
      assert ps == [ps[0]] + ps[1..];
    }
  }

  function IndicesOf(ps: seq<Partial>): (indices: seq<int>)
    ensures |indices| == |ps| && forall i :: 0 <= i < |ps| ==> indices[i] == ps[i].index
  {
    seq(|ps|, i requires 0 <= i < |ps| => ps[i].index)
  }

  /** Sorted by index, the partial calls are the assembled calls of the ascending indices. */
  lemma SortedAccumulated(ps: seq<Partial>, deltas: seq<Delta>)
    requires Accumulated(ps, deltas)
    ensures var sorted := SortByIndex(ps);
            && AscendingIndices(IndicesOf(sorted), deltas)
            && forall i :: 0 <= i < |sorted| ==> sorted[i] == Assembled(deltas, sorted[i].index)
  {
    hide At, Assembled;
    var sorted := SortByIndex(ps);
    SortKeeps(ps);
    var indices := IndicesOf(sorted);
    forall i | 0 <= i < |sorted|
      ensures sorted[i] == Assembled(deltas, sorted[i].index) && At(deltas, sorted[i].index) != []
    {
      assert sorted[i] in ps;
    }
    forall k | At(deltas, k) != [] ensures k in indices {
      var i :| 0 <= i < |ps| && ps[i].index == k;
      assert ps[i] in sorted;
      var j :| 0 <= j < |sorted| && sorted[j] == ps[i];
      assert indices[j] == k;
    }
  }

  /** The assembled calls, one for each index in ascending order. */
  ghost predicate CallsInOrder<A>(deltas: seq<Delta>, arguments: Arguments<A>, out: seq<Emission<A>>) {
    exists indices :: AscendingIndices(indices, deltas) && out == CallsFor(indices, deltas, arguments)
  }

  method EmitToolCalls<A>(ps: seq<Partial>, arguments: Arguments<A>, ghost deltas: seq<Delta>)
      returns (out: seq<Emission<A>>)
    requires Accumulated(ps, deltas)
    ensures CallsInOrder(deltas, arguments, out)
  {
    hide SortByIndex, At, Assembled, Accumulated, AscendingIndices, CallsFor;
    var sorted := SortByIndex(ps);
    SortedAccumulated(ps, deltas);
    ghost var indices := IndicesOf(sorted);
    NoCalls(deltas, arguments);
    out := [];
    for i := 0 to |sorted|
      invariant out == CallsFor(indices[..i], deltas, arguments)
    {
      NextCall(indices, deltas, arguments, i);
      if sorted[i].name == "" {
        continue;
      }
      out := out + [Call(sorted[i].id, sorted[i].name, arguments.Read(sorted[i].arguments))];
    }
    assert indices[..|sorted|] == indices;
  }

  lemma NothingAccumulated()
    ensures Accumulated([], [])
  {
  }

  lemma FinishedEmits<A>(chunks: seq<Chunk>, n: nat, arguments: Arguments<A>, calls: seq<Emission<A>>)
    requires ReadCount(chunks, n) && (n > 0 ==> !chunks[n - 1].Failure?)
    requires CallsInOrder(AllDeltas(chunks[..n]), arguments, calls)
    ensures Emitted(chunks, arguments, Contents(chunks[..n]) + calls + [Finished])
  {
    var indices :| AscendingIndices(indices, AllDeltas(chunks[..n]))
                && calls == CallsFor(indices, AllDeltas(chunks[..n]), arguments);
    assert FinishedAfter(chunks[..n], indices, arguments, Contents(chunks[..n]) + calls + [Finished]);
  }

  lemma FailureEmits<A>(chunks: seq<Chunk>, n: nat, arguments: Arguments<A>)
    requires n < |chunks| && chunks[n].Failure? && forall j :: 0 <= j < n ==> !Ends(chunks[j])
    ensures Emitted(chunks, arguments, Contents(chunks[..n]) + [Failed(chunks[n].message)])
  {
    assert chunks[..n + 1][..n] == chunks[..n];
    assert ReadCount(chunks, n + 1);
    assert FailedAfter(chunks[..n + 1], Contents<A>(chunks[..n]) + [Failed(chunks[n].message)]);
  }

  lemma NextChunk<A>(chunks: seq<Chunk>, i: nat)
    requires i < |chunks|
    ensures AllDeltas(chunks[..i + 1])
         == if chunks[i].Choice? then AllDeltas(chunks[..i]) + chunks[i].deltas else AllDeltas(chunks[..i])
    ensures Contents<A>(chunks[..i + 1])
         == if chunks[i].Choice? && chunks[i].content != "" then Contents(chunks[..i]) + [Content(chunks[i].content)]
            else Contents(chunks[..i])
  {
    assert chunks[..i + 1][..i] == chunks[..i];
  }

  lemma NothingRead<A>()
    ensures AllDeltas([]) == [] && Contents<A>([]) == []
  {
  }

  /** The loop of the chat stream over parsed chunks. */
  method StreamChat<A>(chunks: seq<Chunk>, arguments: Arguments<A>) returns (out: seq<Emission<A>>)
    ensures Emitted(chunks, arguments, out)
  {
    hide Accumulated, CallsInOrder, Emitted, AllDeltas, Contents;
    out := [];
    var partials: seq<Partial> := [];
    NothingAccumulated();
    NothingRead<A>();
    assert chunks[..0] == [];
    for i := 0 to |chunks|
      invariant forall j :: 0 <= j < i ==> !Ends(chunks[j])
      invariant out == Contents(chunks[..i]) && Accumulated(partials, AllDeltas(chunks[..i]))
    {
      NextChunk<A>(chunks, i);
      match chunks[i] {
        case Failure(message) =>
          FailureEmits(chunks, i, arguments);
          out := out + [Failed(message)];
          return;
        case NoChoice =>
        case Choice(content, deltas, ending) =>
          if content != "" {
            out := out + [Content(content)];
          }
          partials := Accumulate(partials, deltas, AllDeltas(chunks[..i]));
          if ending != Open {
            var calls := EmitToolCalls(partials, arguments, AllDeltas(chunks[..i + 1]));
            FinishedEmits(chunks, i + 1, arguments, calls);
            out := out + calls + [Finished];
            return;
          }
      }
    }
    assert chunks[..|chunks|] == chunks;
    var calls := EmitToolCalls(partials, arguments, AllDeltas(chunks));
    FinishedEmits(chunks, |chunks|, arguments, calls);
    out := out + calls + [Finished];
  }

  // ------------------------------------------------------------- what is emitted is determined

  lemma ReadCountUnique(chunks: seq<Chunk>, n: nat, m: nat)
    requires ReadCount(chunks, n) && ReadCount(chunks, m)
    ensures n == m
  {
  }

  ghost predicate Ascending(a: seq<int>) {
    forall i, j :: 0 <= i < j < |a| ==> a[i] < a[j]
  }

  lemma {:induction false} SameAscending(a: seq<int>, b: seq<int>)
    requires Ascending(a) && Ascending(b) && forall k :: k in a <==> k in b
    ensures a == b
  {
    assert a != [] ==> a[0] in a;
    assert b != [] ==> b[0] in b;
    if a != [] && b != [] {
      var m, n := |a| - 1, |b| - 1;
      assert a[m] in b && b[n] in a;
      assert a[m] == b[n];
      forall k ensures k in a[..m] <==> k in b[..n] {
        assert k in a[..m] <==> k in a && k != a[m];
        assert k in b[..n] <==> k in b && k != b[n];
      }
      SameAscending(a[..m], b[..n]);
      assert a == a[..m] + [a[m]] && b == b[..n] + [b[n]];
    }
  }

  /** The chunks and the way arguments are read determine everything that is emitted. */
  lemma EmittedOnce<A>(chunks: seq<Chunk>, arguments: Arguments<A>, a: seq<Emission<A>>, b: seq<Emission<A>>)
    requires Emitted(chunks, arguments, a) && Emitted(chunks, arguments, b)
    ensures a == b
  {
    hide FailedAfter, FinishedAfter;
    var n, failed, indices := Reading(chunks, arguments, a);
    var m, failed', indices' := Reading(chunks, arguments, b);
    ReadCountUnique(chunks, n, m);
    SameOutcome(chunks[..n], arguments, failed, indices, a, failed', indices', b);
  }

  lemma Reading<A>(chunks: seq<Chunk>, arguments: Arguments<A>, out: seq<Emission<A>>)
      returns (n: nat, failed: bool, indices: seq<int>)
    requires Emitted(chunks, arguments, out)
    ensures ReadCount(chunks, n)
    ensures if failed then FailedAfter(chunks[..n], out) else FinishedAfter(chunks[..n], indices, arguments, out)
  {
    hide FailedAfter, FinishedAfter;
    failed, indices := true, [];
    if k: nat :| ReadCount(chunks, k) && FailedAfter(chunks[..k], out) {
      n := k;
    } else {
      failed := false;
      n, indices :| ReadCount(chunks, n) && FinishedAfter(chunks[..n], indices, arguments, out);
    }
  }

  lemma SameOutcome<A>(read: seq<Chunk>, arguments: Arguments<A>,
                       failed: bool, indices: seq<int>, a: seq<Emission<A>>,
                       failed': bool, indices': seq<int>, b: seq<Emission<A>>)
    requires if failed then FailedAfter(read, a) else FinishedAfter(read, indices, arguments, a)
    requires if failed' then FailedAfter(read, b) else FinishedAfter(read, indices', arguments, b)
    ensures a == b
  {
    hide Contents, CallsFor, AllDeltas, At;
    if !failed && !failed' {
      assert Ascending(indices) && Ascending(indices');
      SameAscending(indices, indices');
    }
  }

  /**
   * The stream from the text up: the events read from however many pieces of text drive the chat, and what is emitted
   * is determined by the whole text.
   */
  method StreamText<A>(texts: seq<string>, parse: string -> Option<Chunk>, arguments: Arguments<A>)
      returns (out: seq<Emission<A>>)
    ensures Emitted(EventStream.EventsOf(EventStream.Joined(texts), parse), arguments, out)
  {
    hide Emitted;
    var events := EventStream.ParseSse(texts, parse);
    out := StreamChat(events, arguments);
  }

  /** Texts that join to the same whole make the chat emit the same, however they were cut. */
  lemma CuttingChangesNothing<A>(texts: seq<string>, others: seq<string>, parse: string -> Option<Chunk>,
                                 arguments: Arguments<A>, a: seq<Emission<A>>, b: seq<Emission<A>>)
    requires EventStream.Joined(texts) == EventStream.Joined(others)
    requires Emitted(EventStream.EventsOf(EventStream.Joined(texts), parse), arguments, a)
    requires Emitted(EventStream.EventsOf(EventStream.Joined(others), parse), arguments, b)
    ensures a == b
  {
    hide Emitted;
    EmittedOnce(EventStream.EventsOf(EventStream.Joined(texts), parse), arguments, a, b);
  }

  // ------------------------------------------------------------- what is emitted, told of the stream alone

  /** The arguments a text stands for: what it parses to, or the empty ones when there is no text or no parse. */
  ghost predicate ArgumentsOf<A>(text: string, arguments: Arguments<A>, args: A) {
    && (text != "" && arguments.parse(text).Some? ==> args == arguments.parse(text).value)
    && (text == "" || arguments.parse(text).None? ==> args == arguments.empty)
  }

  /** A call that comes in one fragment is emitted with its own name and arguments, and not without a name. */
  lemma OneFragment<A>(d: Delta, arguments: Arguments<A>, out: seq<Emission<A>>)
    requires CallsInOrder([d], arguments, out)
    ensures d.name == "" ==> out == []
    ensures d.name != "" ==>
              |out| == 1 && out[0].Call? && out[0].name == d.name && ArgumentsOf(d.arguments, arguments, out[0].args)
              && out[0].id == (match d.id case Some(id) => id case None => d.spareId)
  {
    var indices :| AscendingIndices(indices, [d]) && out == CallsFor(indices, [d], arguments);
    OnlyIndex(d, indices);
    FragmentIs(d);
    hide AscendingIndices, Assembled, At, Names, ArgumentText;
    NextCall([d.index], [d], arguments, 0);
    NoCalls([d], arguments);
    assert [d.index][..1] == [d.index] && [d.index][..0] == [];
    hide CallsFor;
  }

  lemma OnlyIndex(d: Delta, indices: seq<int>)
    requires AscendingIndices(indices, [d])
    ensures indices == [d.index]
  {
    assert [] + [d] == [d];
    forall k ensures k in indices <==> k in [d.index] {
      AtGrows([], d, k);
    }
    hide At;
    SameAscending(indices, [d.index]);
  }

  lemma FragmentIs(d: Delta)
    ensures Assembled([d], d.index)
         == Partial(d.index, match d.id case Some(id) => id case None => d.spareId, d.name, d.arguments)
  {
    assert [] + [d] == [d];
    AssembledGrows([], d, d.index);
  }

  /** `d` is what its two halves say one after the other; the second half's id does not count. */
  ghost predicate Halves(d: Delta, first: Delta, second: Delta) {
    && first.index == second.index == d.index && first.id == d.id && first.spareId == d.spareId
    && d.name == first.name + second.name && d.arguments == first.arguments + second.arguments
  }

  /** The same is assembled at the index. */
  ghost predicate SameAt(a: seq<Delta>, b: seq<Delta>, k: int) {
    (At(a, k) == [] <==> At(b, k) == []) && Assembled(a, k) == Assembled(b, k)
  }

  /** The same calls are assembled at every index. */
  ghost predicate SameCalls(a: seq<Delta>, b: seq<Delta>) {
    forall k :: SameAt(a, b, k)
  }

  lemma {:induction false} SameCallsGrow(a: seq<Delta>, b: seq<Delta>, more: seq<Delta>)
    requires SameCalls(a, b)
    ensures SameCalls(a + more, b + more)
  {
    if more == [] {
      assert a + more == a && b + more == b;
    } else {
      var front, d := more[..|more| - 1], more[|more| - 1];
      SameCallsGrow(a, b, front);
      assert a + more == (a + front) + [d] && b + more == (b + front) + [d];
      hide SameAt;
      forall k ensures SameAt((a + front) + [d], (b + front) + [d], k) {
        assert SameAt(a + front, b + front, k);
        SameAtGrows(a + front, b + front, d, k);
      }
    }
  }

  lemma SameAtGrows(a: seq<Delta>, b: seq<Delta>, d: Delta, k: int)
    requires SameAt(a, b, k)
    ensures SameAt(a + [d], b + [d], k)
  {
    hide At, Assembled, Names, ArgumentText;
    AssembledGrows(a, d, k);
    AssembledGrows(b, d, k);
  }

  lemma SplitAt(before: seq<Delta>, d: Delta, first: Delta, second: Delta, k: int)
    requires Halves(d, first, second)
    ensures SameAt(before + [d], (before + [first]) + [second], k)
  {
    hide At, Assembled, Names, ArgumentText;
    AssembledGrows(before, d, k);
    AssembledGrows(before, first, k);
    AssembledGrows(before + [first], second, k);
    if k == d.index {
      var was := Assembled(before, d.index);
      assert was.name + d.name == (was.name + first.name) + second.name;
      assert was.arguments + d.arguments == (was.arguments + first.arguments) + second.arguments;
    }
  }

  /** How a call is cut into fragments does not matter. */
  lemma SplittingKeepsCalls(before: seq<Delta>, d: Delta, first: Delta, second: Delta, after: seq<Delta>)
    requires Halves(d, first, second)
    ensures SameCalls(before + [d] + after, before + [first, second] + after)
  {
    forall k ensures SameAt(before + [d], (before + [first]) + [second], k) {
      SplitAt(before, d, first, second, k);
    }
    hide SameAt;
    assert before + [first, second] == (before + [first]) + [second];
    SameCallsGrow(before + [d], (before + [first]) + [second], after);
  }

  lemma SwapAt(before: seq<Delta>, one: Delta, other: Delta, k: int)
    requires one.index != other.index
    ensures SameAt((before + [one]) + [other], (before + [other]) + [one], k)
  {
    hide At, Assembled, Names, ArgumentText;
    AssembledGrows(before, one, k);
    AssembledGrows(before + [one], other, k);
    AssembledGrows(before, other, k);
    AssembledGrows(before + [other], one, k);
    if k == one.index {
      AssembledGrows(before, other, one.index);
    } else if k == other.index {
      AssembledGrows(before, one, other.index);
    }
  }

  /** Nor does it matter how the fragments of different calls are interleaved. */
  lemma SwappingKeepsCalls(before: seq<Delta>, one: Delta, other: Delta, after: seq<Delta>)
    requires one.index != other.index
    ensures SameCalls(before + [one, other] + after, before + [other, one] + after)
  {
    forall k ensures SameAt((before + [one]) + [other], (before + [other]) + [one], k) {
      SwapAt(before, one, other, k);
    }
    hide SameAt;
    assert before + [one, other] == (before + [one]) + [other] && before + [other, one] == (before + [other]) + [one];
    SameCallsGrow((before + [one]) + [other], (before + [other]) + [one], after);
  }

  /** What is the same at every index is emitted the same. */
  lemma SameCallsEmitted<A>(a: seq<Delta>, b: seq<Delta>, arguments: Arguments<A>, out: seq<Emission<A>>)
    requires SameCalls(a, b) && CallsInOrder(a, arguments, out)
    ensures CallsInOrder(b, arguments, out)
  {
    hide At, Assembled, CallsFor;
    var indices :| AscendingIndices(indices, a) && out == CallsFor(indices, a, arguments);
    CallsAgree(indices, a, b, arguments);
    forall k ensures k in indices <==> At(b, k) != [] {
      assert SameAt(a, b, k);
    }
    assert AscendingIndices(indices, b);
  }

  lemma {:induction false} CallsAgree<A>(indices: seq<int>, a: seq<Delta>, b: seq<Delta>, arguments: Arguments<A>)
    requires SameCalls(a, b)
    ensures CallsFor(indices, a, arguments) == CallsFor(indices, b, arguments)
  {
    hide At, Assembled;
    if indices != [] {
      CallsAgree(indices[..|indices| - 1], a, b, arguments);
      assert SameAt(a, b, indices[|indices| - 1]);
    }
  }

  /** All the text of a stream, piece by piece as it is emitted. */
  function TextOf<A>(out: seq<Emission<A>>): string {
    if out == [] then ""
    else TextOf(out[..|out| - 1]) + (if out[|out| - 1].Content? then out[|out| - 1].text else "")
  }

  function TextIn(chunks: seq<Chunk>): string {
    if chunks == [] then ""
    else TextIn(chunks[..|chunks| - 1]) + (if chunks[|chunks| - 1].Choice? then chunks[|chunks| - 1].content else "")
  }

  /** The text that is emitted is the text that came, in pieces that are not empty. */
  lemma {:induction false} TextIsKept<A>(chunks: seq<Chunk>)
    ensures TextOf(Contents<A>(chunks)) == TextIn(chunks)
    ensures forall x :: x in Contents<A>(chunks) ==> x.Content? && x.text != ""
  {
    if chunks != [] {
      var front, last := chunks[..|chunks| - 1], chunks[|chunks| - 1];
      TextIsKept<A>(front);
      if last.Choice? && last.content != "" {
        assert (Contents<A>(front) + [Content(last.content)])[..|Contents<A>(front)|] == Contents<A>(front);
      } else {
        assert Contents<A>(front) + [] == Contents<A>(front);
      }
    }
  }

  /** An error, a stop or a request to call tools ends the stream: what comes after it is never looked at. */
  lemma NothingAfterEnd<A>(before: seq<Chunk>, last: Chunk, after: seq<Chunk>, arguments: Arguments<A>,
                           out: seq<Emission<A>>)
    requires forall c :: c in before ==> c == NoChoice || (c.Choice? && c.ending == Open)
    requires last.Failure? || (last.Choice? && last.ending in {Stop, ToolCallsReady})
    requires Emitted(before + [last] + after, arguments, out)
    ensures if last.Failure? then out == Contents(before + [last]) + [Failed(last.message)]
            else exists calls :: CallsInOrder(AllDeltas(before + [last]), arguments, calls)
                              && out == Contents(before + [last]) + calls + [Finished]
  {
    var chunks, n := before + [last] + after, |before| + 1;
    assert chunks[n - 1] == last && chunks[..n] == before + [last];
    forall i | 0 <= i < n - 1 ensures !Ends(chunks[i]) {
      assert chunks[i] == before[i] && before[i] in before;
    }
    hide FailedAfter, FinishedAfter, Contents, AllDeltas;
    var m, failed, indices := Reading(chunks, arguments, out);
    ReadCountUnique(chunks, n, m);
    OutcomeOf(before + [last], arguments, failed, indices, out);
  }

  lemma OutcomeOf<A>(read: seq<Chunk>, arguments: Arguments<A>, failed: bool, indices: seq<int>, out: seq<Emission<A>>)
    requires read != []
    requires if failed then FailedAfter(read, out) else FinishedAfter(read, indices, arguments, out)
    ensures if read[|read| - 1].Failure? then out == Contents(read) + [Failed(read[|read| - 1].message)]
            else exists calls :: CallsInOrder(AllDeltas(read), arguments, calls)
                              && out == Contents(read) + calls + [Finished]
  {
    hide Contents, AllDeltas;
    if !failed {
      assert CallsInOrder(AllDeltas(read), arguments, CallsFor(indices, AllDeltas(read), arguments));
    }
  }
}
