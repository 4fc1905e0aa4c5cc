/** Rendering a failed deployment within a budget: the reason, the log lookup and the end of every service's log. */
module DeployDiagnostic {
  import opened Options
  import opened Text
  import opened DiagnosticBudget
  import opened DiagnosticAllocation

  const LOG_PREVIEW_CHARS := 2_000
  const COMPACT_FAILURE_CHARS := 96
  const MINIMUM_TAIL := 48
  const ELLIPSIS := '\U{2026}'

  datatype Log = Log(service: string, text: string)

  /** An empty `failure` or `nextStep` stands for an absent one. */
  datatype Diagnostic = Diagnostic(lead: string, appName: string, failure: string, failCount: string, nextStep: string,
                                   logs: seq<Log>, omittedServices: nat)

  /** Plain text counts code points; serialized text counts what each costs inside a JSON string. */
  datatype Mode = Mode(serialized: bool, jsonCost: char -> nat, clean: string -> string)

  ghost predicate LawfulMode(mode: Mode) {
    && (forall c :: mode.jsonCost(c) >= 1)
    && mode.jsonCost(ELLIPSIS) == 1 && mode.jsonCost(' ') == 1
  }

  // ------------------------------------------------------------- measuring and cutting

  function PointCost(mode: Mode, c: char): nat {
    if mode.serialized then mode.jsonCost(c) else 1
  }

  function Measure(mode: Mode, text: string): nat {
    if text == "" then 0 else Measure(mode, text[..|text| - 1]) + PointCost(mode, text[|text| - 1])
  }

  lemma {:induction false} MeasureJoin(mode: Mode, a: string, b: string)
    ensures Measure(mode, a + b) == Measure(mode, a) + Measure(mode, b)
  {
    if b == "" {
      assert a + b == a;
    } else {
      MeasureJoin(mode, a, b[..|b| - 1]);
      assert (a + b)[..|a + b| - 1] == a + b[..|b| - 1];
    }
  }

  lemma MeasurePoint(mode: Mode, c: char)
    ensures Measure(mode, [c]) == PointCost(mode, c)
  {
    assert [c][..0] == "";
  }

  /** Plain text is measured in characters, serialized text by what its characters cost inside a JSON string. */
  lemma {:induction false} MeasureTells(mode: Mode, text: string, c: char)
    ensures Measure(mode, "") == 0
    ensures Measure(mode, text + [c]) == Measure(mode, text) + (if mode.serialized then mode.jsonCost(c) else 1)
    ensures !mode.serialized ==> Measure(mode, text) == |text|
  {
    assert (text + [c])[..|text|] == text;
    if text != "" {
      MeasureTells(mode, text[..|text| - 1], c);
    }
  }

  lemma {:induction false} MeasureStep(mode: Mode, text: string, n: nat)
    requires n < |text|
    ensures Measure(mode, text[..n + 1]) == Measure(mode, text[..n]) + PointCost(mode, text[n])
    ensures Measure(mode, text[n..]) == PointCost(mode, text[n]) + Measure(mode, text[n + 1..])
  {
    assert text[..n + 1][..n] == text[..n];
    assert text[n..] == [text[n]] + text[n + 1..];
    MeasureJoin(mode, [text[n]], text[n + 1..]);
    MeasurePoint(mode, text[n]);
  }

  /** `n` points from the front fit the budget and one more does not. */
  ghost predicate LongestFront(mode: Mode, text: string, budget: int, n: nat) {
    && n <= |text| && Measure(mode, text[..n]) <= budget
    && (n < |text| ==> Measure(mode, text[..n + 1]) > budget)
  }

  /** The points from `n` on fit the budget and one more before them does not. */
  ghost predicate LongestBack(mode: Mode, text: string, budget: int, n: nat) {
    && n <= |text| && Measure(mode, text[n..]) <= budget
    && (n > 0 ==> Measure(mode, text[n - 1..]) > budget)
  }

  /** Text that fits is left alone; otherwise the longest front or back that fits beside one ellipsis, or nothing. */
  ghost predicate Fitted(mode: Mode, text: string, limit: int, tail: bool, out: string) {
    if Measure(mode, text) <= limit then out == text
    else if limit < 1 then out == ""
    else if tail then
      exists n: nat ::
        LongestBack(mode, text, limit - 1, n) && out == if n == |text| then "" else [ELLIPSIS] + text[n..]
    else
      exists n: nat :: LongestFront(mode, text, limit - 1, n) && out == if n == 0 then "" else text[..n] + [ELLIPSIS]
  }

  lemma FittedMeasure(mode: Mode, text: string, limit: int, tail: bool, out: string)
    requires LawfulMode(mode) && Fitted(mode, text, limit, tail, out) && limit >= 0
    ensures Measure(mode, out) <= limit
  {
    if Measure(mode, text) > limit && limit >= 1 {
      MeasurePoint(mode, ELLIPSIS);
      if tail {
        var n: nat :|
          LongestBack(mode, text, limit - 1, n) && out == if n == |text| then "" else [ELLIPSIS] + text[n..];
        MeasureJoin(mode, [ELLIPSIS], text[n..]);
      } else {
        var n: nat :| LongestFront(mode, text, limit - 1, n) && out == if n == 0 then "" else text[..n] + [ELLIPSIS];
        MeasureJoin(mode, text[..n], [ELLIPSIS]);
      }
    }
  }

  method FitText(mode: Mode, text: string, limit: int, tail: bool) returns (out: string)
    requires LawfulMode(mode)
    ensures Fitted(mode, text, limit, tail, out)
  {
    if Measure(mode, text) <= limit {
      return text;
    }
    var remaining := limit - 1;
    if remaining < 0 {
      return "";
    }
    if tail {
      var n := |text|;
      while n > 0 && PointCost(mode, text[n - 1]) <= remaining
        invariant 0 <= n <= |text| && remaining == limit - 1 - Measure(mode, text[n..]) >= 0
      {
        MeasureStep(mode, text, n - 1);
        remaining := remaining - PointCost(mode, text[n - 1]);
        n := n - 1;
      }
      if n > 0 {
        MeasureStep(mode, text, n - 1);
      }
      assert LongestBack(mode, text, limit - 1, n);
      return if n == |text| then "" else [ELLIPSIS] + text[n..];
    } else {
      var n := 0;
      while n < |text| && PointCost(mode, text[n]) <= remaining
        invariant 0 <= n <= |text| && remaining == limit - 1 - Measure(mode, text[..n]) >= 0
      {
        MeasureStep(mode, text, n);
        remaining := remaining - PointCost(mode, text[n]);
        n := n + 1;
      }
      if n < |text| {
        MeasureStep(mode, text, n);
      }
      assert LongestFront(mode, text, limit - 1, n);
      return if n == 0 then "" else text[..n] + [ELLIPSIS];
    }
  }

  // ------------------------------------------------------------- the pieces

  function Separator(mode: Mode): string {
    if mode.serialized then " " else "\n\n"
  }

  function LineBreak(mode: Mode): string {
    if mode.serialized then " " else "\n"
  }

  function Join(parts: seq<string>, separator: string): string {
    if parts == [] then ""
    else if |parts| == 1 then parts[0]
    else Join(parts[..|parts| - 1], separator) + separator + parts[|parts| - 1]
  }

  /** `parts.filter(Boolean).join(separator)`. */
  function JoinPresent(parts: seq<string>, separator: string): string {
    Join(Present(parts), separator)
  }

  function Present(parts: seq<string>): seq<string> {
    if parts == [] then []
    else Present(parts[..|parts| - 1]) + (if parts[|parts| - 1] == "" then [] else [parts[|parts| - 1]])
  }

  function Lookup(d: Diagnostic): string {
    "Use get_logs(app_name=\"" + d.appName + "\", tail=200) for more:"
  }

  function FailureLine(d: Diagnostic, reason: string): string {
    "Provision error (fail_count=" + d.failCount + "): " + reason
  }

  function Full(d: Diagnostic, mode: Mode): string {
    JoinPresent([d.lead, if d.failure == "" then "" else FailureLine(d, d.failure), d.nextStep,
                 if d.logs == [] then "" else "Container logs (preview). " + Lookup(d)], Separator(mode))
  }

  function Limit(d: Diagnostic, mode: Mode, budget: Option<int>): nat {
    match budget
    case None => Measure(mode, Full(d, mode)) + 1 + LOG_PREVIEW_CHARS
    case Some(b) => Max(0, b - (if mode.serialized then 2 else 0))
  }

  function ShortLimit(limit: nat): nat {
    Min(COMPACT_FAILURE_CHARS, limit / 4)
  }

  function CompactText(d: Diagnostic, mode: Mode, reason: string): string {
    JoinPresent(["Deployment failed.", if d.failure == "" then reason else FailureLine(d, reason), Lookup(d)],
                Separator(mode))
  }

  /** The text before the logs: complete when it fits, otherwise the verdict, the shortened reason and the lookup. */
  ghost predicate IsPrefix(d: Diagnostic, mode: Mode, limit: nat, prefix: string) {
    if Measure(mode, Full(d, mode)) > limit && d.logs != [] then
      exists reason ::
        && Fitted(mode, if d.failure == "" then d.lead else d.failure, ShortLimit(limit), false, reason)
        && prefix == CompactText(d, mode, reason)
    else prefix == Full(d, mode)
  }

  function Shown(mode: Mode, log: Log): string {
    var text := if mode.serialized then mode.clean(log.text) else log.text;
    if text == "" then "(no visible log output)" else text
  }

  function Header(mode: Mode, log: Log): string {
    "[" + log.service + "]" + LineBreak(mode)
  }

  function Omission(d: Diagnostic, mode: Mode, selected: nat): string
    requires selected <= |d.logs|
  {
    var omitted := d.omittedServices + |d.logs| - selected;
    if omitted > 0 then
      (if selected > 0 then LineBreak(mode) else "") + "(" + Decimal(omitted) + " more services; use get_logs.)"
    else ""
  }

  /** Headers and line breaks of the first `n` logs. */
  function HeaderCost(d: Diagnostic, mode: Mode, n: nat): nat
    requires n <= |d.logs|
  {
    if n == 0 then 0
    else HeaderCost(d, mode, n - 1) + Measure(mode, Header(mode, d.logs[n - 1]))
         + (if n > 1 then Measure(mode, LineBreak(mode)) else 0)
  }

  function Demands(d: Diagnostic, mode: Mode, n: nat): (demands: seq<Demand>)
    requires n <= |d.logs|
    ensures |demands| == n
    ensures forall i :: 0 <= i < n ==> demands[i] == Demand(Measure(mode, Shown(mode, d.logs[i])), 1)
  {
    seq(n, i requires 0 <= i < n => Demand(Measure(mode, Shown(mode, d.logs[i])), 1))
  }

  /** Headers plus a minimum tail of each of the first `n` logs. */
  function MinimumCost(d: Diagnostic, mode: Mode, n: nat): nat
    requires n <= |d.logs|
  {
    HeaderCost(d, mode, n) + Cost(Demands(d, mode, n), Capped(Demands(d, mode, n), MINIMUM_TAIL))
  }

  /** The largest number of logs whose headers, minimum tails and omission note fit. */
  ghost predicate Selects(d: Diagnostic, mode: Mode, remaining: nat, n: nat) {
    && n <= |d.logs|
    && (n > 0 ==> MinimumCost(d, mode, n) + Measure(mode, Omission(d, mode, n)) <= remaining)
    && (forall k :: n < k <= |d.logs| ==> MinimumCost(d, mode, k) + Measure(mode, Omission(d, mode, k)) > remaining)
  }

  /** The text after which the last cut is made: prefix, excerpts and omission note. */
  function Body(d: Diagnostic, mode: Mode, prefix: string, excerpts: seq<string>): string
    requires |excerpts| <= |d.logs|
  {
    prefix + LineBreak(mode) + Join(excerpts, LineBreak(mode)) + Omission(d, mode, |excerpts|)
  }

  ghost predicate IsExcerpt(mode: Mode, log: Log, share: nat, excerpt: string) {
    exists tail :: Fitted(mode, Shown(mode, log), share, true, tail) && excerpt == Header(mode, log) + tail
  }

  /** How the space after the prefix was spent: which logs, how much for each tail, and the excerpts. */
  datatype Layout = Layout(prefix: string, shares: seq<nat>, excerpts: seq<string>)

  ghost predicate Laid(d: Diagnostic, mode: Mode, limit: nat, layout: Layout) {
    var n := |layout.excerpts|;
    && IsPrefix(d, mode, limit, layout.prefix)
    && n <= |d.logs|
    && var used := Measure(mode, layout.prefix) + Measure(mode, LineBreak(mode));
       && used <= limit
       && Selects(d, mode, limit - used, n)
       && Allocated(Demands(d, mode, n), limit - used - Measure(mode, Omission(d, mode, n)) - HeaderCost(d, mode, n),
                    layout.shares)
       && forall i :: 0 <= i < n ==> IsExcerpt(mode, d.logs[i], layout.shares[i], layout.excerpts[i])
  }

  // ------------------------------------------------------------- the selected pieces fit

  lemma {:induction false} JoinMeasure(d: Diagnostic, mode: Mode, shares: seq<nat>, excerpts: seq<string>)
    requires LawfulMode(mode) && |shares| == |excerpts| <= |d.logs|
    requires forall i :: 0 <= i < |excerpts| ==> IsExcerpt(mode, d.logs[i], shares[i], excerpts[i])
    ensures Measure(mode, Join(excerpts, LineBreak(mode))) <= HeaderCost(d, mode, |excerpts|) + Sum(shares)
  {
    var n := |excerpts|;
    if n > 0 {
      JoinMeasure(d, mode, shares[..n - 1], excerpts[..n - 1]);
      ExcerptMeasure(mode, d.logs[n - 1], shares[n - 1], excerpts[n - 1]);
      if n > 1 {
        var front, lineBreak := Join(excerpts[..n - 1], LineBreak(mode)), LineBreak(mode);
        MeasureJoin(mode, front + lineBreak, excerpts[n - 1]);
        MeasureJoin(mode, front, lineBreak);
      }
    }
  }

  lemma ExcerptMeasure(mode: Mode, log: Log, share: nat, excerpt: string)
    requires LawfulMode(mode) && IsExcerpt(mode, log, share, excerpt)
    ensures Measure(mode, excerpt) <= Measure(mode, Header(mode, log)) + share
  {
    var tail :| Fitted(mode, Shown(mode, log), share, true, tail) && excerpt == Header(mode, log) + tail;
    FittedMeasure(mode, Shown(mode, log), share, true, tail);
    MeasureJoin(mode, Header(mode, log), tail);
  }

  lemma {:induction false} UnitCost(demands: seq<Demand>, shares: seq<nat>)
    requires |shares| == |demands| && forall i :: 0 <= i < |demands| ==> demands[i].copies == 1
    ensures Cost(demands, shares) == Sum(shares)
  {
    assert Costs(demands, shares) == shares;
  }

  /** With at least one log selected, all pieces together already fit: the last cut removes nothing. */
  lemma SelectedFits(d: Diagnostic, mode: Mode, limit: nat, layout: Layout)
    requires LawfulMode(mode) && Laid(d, mode, limit, layout) && layout.excerpts != []
    ensures Measure(mode, Body(d, mode, layout.prefix, layout.excerpts)) <= limit
  {
    hide Measure, Fitted, Selects, HeaderCost, Sum, Cost, IsExcerpt, IsPrefix, Omission, Join, Allocated;
    var n, lineBreak := |layout.excerpts|, LineBreak(mode);
    var joined, omission := Join(layout.excerpts, lineBreak), Omission(d, mode, n);
    var budget := limit - Measure(mode, layout.prefix) - Measure(mode, lineBreak) - Measure(mode, omission)
                  - HeaderCost(d, mode, n);
    TailBudgetCovers(d, mode, limit, layout);
    AllocationWithinBudget(Demands(d, mode, n), budget, layout.shares);
    UnitCost(Demands(d, mode, n), layout.shares);
    JoinMeasure(d, mode, layout.shares, layout.excerpts);
    MeasureJoin(mode, layout.prefix + lineBreak + joined, omission);
    MeasureJoin(mode, layout.prefix + lineBreak, joined);
    MeasureJoin(mode, layout.prefix, lineBreak);
  }

  /** The tail budget of a selection is what is left, and pays for every minimum tail. */
  lemma TailBudgetCovers(d: Diagnostic, mode: Mode, limit: nat, layout: Layout)
    requires Laid(d, mode, limit, layout) && layout.excerpts != []
    ensures var n := |layout.excerpts|;
            var budget := limit - Measure(mode, layout.prefix) - Measure(mode, LineBreak(mode))
                          - Measure(mode, Omission(d, mode, n)) - HeaderCost(d, mode, n);
            && |layout.shares| == n
            && budget >= Cost(Demands(d, mode, n), Capped(Demands(d, mode, n), MINIMUM_TAIL))
  {
    hide Measure, Fitted, HeaderCost, Sum, Cost, IsExcerpt, IsPrefix, Omission, Join;
  }

  /** Every selected log gets room for its whole text or at least the minimum tail. */
  lemma SelectedTails(d: Diagnostic, mode: Mode, limit: nat, layout: Layout)
    requires Laid(d, mode, limit, layout) && layout.excerpts != []
    ensures |layout.shares| == |layout.excerpts|
    ensures forall i :: 0 <= i < |layout.shares| ==>
              layout.shares[i] >= Min(Measure(mode, Shown(mode, d.logs[i])), 48)
  {
    hide Measure, Fitted, Selects, HeaderCost, Sum, Cost, IsExcerpt, IsPrefix, Omission, Join, Allocated;
    var n := |layout.excerpts|;
    var budget := limit - Measure(mode, layout.prefix) - Measure(mode, LineBreak(mode))
                  - Measure(mode, Omission(d, mode, n)) - HeaderCost(d, mode, n);
    TailBudgetCovers(d, mode, limit, layout);
    AllocationReachesLevel(Demands(d, mode, n), budget, layout.shares, MINIMUM_TAIL);
  }

  // ------------------------------------------------------------- the renderer

  method ChoosePrefix(d: Diagnostic, mode: Mode, limit: nat) returns (prefix: string)
    requires LawfulMode(mode)
    ensures IsPrefix(d, mode, limit, prefix)
  {
    hide Measure, Fitted, CompactText, Full;
    var full := Full(d, mode);
    if Measure(mode, full) > limit && d.logs != [] {
      var reason := FitText(mode, if d.failure == "" then d.lead else d.failure, ShortLimit(limit), false);
      return CompactText(d, mode, reason);
    }
    return full;
  }

  lemma MinimumCostStep(d: Diagnostic, mode: Mode, n: nat)
    requires n < |d.logs|
    ensures MinimumCost(d, mode, n + 1)
         == MinimumCost(d, mode, n) + Measure(mode, Header(mode, d.logs[n]))
            + (if n > 0 then Measure(mode, LineBreak(mode)) else 0)
            + Min(MINIMUM_TAIL, Measure(mode, Shown(mode, d.logs[n])))
  {
    hide Measure, Shown, Header;
    var small, large := Demands(d, mode, n), Demands(d, mode, n + 1);
    var cs, cl := Costs(small, Capped(small, MINIMUM_TAIL)), Costs(large, Capped(large, MINIMUM_TAIL));
    assert cl[..n] == cs;
    assert cl[n] == Min(large[n].size, MINIMUM_TAIL) * 1;
  }

  method SelectLogs(d: Diagnostic, mode: Mode, remaining: nat) returns (selectedCount: nat)
    ensures Selects(d, mode, remaining, selectedCount)
  {
    hide MinimumCost, Measure, Omission, Shown, Header;
    selectedCount := 0;
    var minimumCost: nat := 0;
    NoLogsCost(d, mode);
    for index := 0 to |d.logs|
      invariant minimumCost == MinimumCost(d, mode, index)
      invariant selectedCount <= index
      invariant selectedCount > 0 ==>
                  MinimumCost(d, mode, selectedCount) + Measure(mode, Omission(d, mode, selectedCount)) <= remaining
      invariant forall k :: selectedCount < k <= index ==>
                  MinimumCost(d, mode, k) + Measure(mode, Omission(d, mode, k)) > remaining
    {
      MinimumCostStep(d, mode, index);
      minimumCost := minimumCost + Measure(mode, Header(mode, d.logs[index]))
                     + (if index > 0 then Measure(mode, LineBreak(mode)) else 0)
                     + Min(MINIMUM_TAIL, Measure(mode, Shown(mode, d.logs[index])));
      if minimumCost + Measure(mode, Omission(d, mode, index + 1)) <= remaining {
        selectedCount := index + 1;
      }
    }
  }

  lemma NoLogsCost(d: Diagnostic, mode: Mode)
    ensures MinimumCost(d, mode, 0) == 0
  {
    assert Costs(Demands(d, mode, 0), Capped(Demands(d, mode, 0), MINIMUM_TAIL)) == [];
  }

  method CutTails(d: Diagnostic, mode: Mode, shares: seq<nat>) returns (excerpts: seq<string>)
    requires LawfulMode(mode) && |shares| <= |d.logs|
    ensures |excerpts| == |shares|
    ensures forall i :: 0 <= i < |shares| ==> IsExcerpt(mode, d.logs[i], shares[i], excerpts[i])
  {
    hide Measure, Fitted, Shown, Header;
    excerpts := [];
    for i := 0 to |shares|
      invariant |excerpts| == i
      invariant forall k :: 0 <= k < i ==> IsExcerpt(mode, d.logs[k], shares[k], excerpts[k])
    {
      var tail := FitText(mode, Shown(mode, d.logs[i]), shares[i], true);
      excerpts := excerpts + [Header(mode, d.logs[i]) + tail];
    }
  }

  /** There are no logs, or the prefix leaves no room for them. */
  ghost predicate WithoutLogs(d: Diagnostic, mode: Mode, limit: nat, prefix: string, out: string) {
    && IsPrefix(d, mode, limit, prefix) && (d.logs == [] || Measure(mode, prefix) >= limit)
    && Fitted(mode, prefix, limit, false, out)
  }

  /** Everything laid out is shown; only a layout without a single log can still be cut. */
  ghost predicate WithLogs(d: Diagnostic, mode: Mode, limit: nat, layout: Layout, out: string) {
    && Laid(d, mode, limit, layout)
    && Fitted(mode, Body(d, mode, layout.prefix, layout.excerpts), limit, false, out)
    && (layout.excerpts != [] ==> out == Body(d, mode, layout.prefix, layout.excerpts))
  }

  /**
   * The rendered diagnostic never exceeds its limit. When it shows at least one log, nothing of the assembled text
   * was cut away at the end.
   */
  method RenderDeployDiagnostic(d: Diagnostic, mode: Mode, budget: Option<int>) returns (out: string)
    requires LawfulMode(mode)
    ensures Measure(mode, out) <= Limit(d, mode, budget)
    ensures budget.Some? && !mode.serialized ==> Measure(mode, out) <= Max(0, budget.value)
    ensures budget.Some? && mode.serialized ==> Measure(mode, out) <= Max(0, budget.value - 2)
    ensures (exists prefix :: WithoutLogs(d, mode, Limit(d, mode, budget), prefix, out))
         || (exists layout :: WithLogs(d, mode, Limit(d, mode, budget), layout, out))
    ensures budget.None? ==> Full(d, mode) <= out
    ensures budget.None? ==> Measure(mode, out) <= Measure(mode, Full(d, mode)) + 2_001
  {
    assert budget.Some? ==> Limit(d, mode, budget) == Max(0, budget.value - (if mode.serialized then 2 else 0));
    assert budget.None? ==> Limit(d, mode, budget) == Measure(mode, Full(d, mode)) + 2_001;
    hide Measure, Fitted, IsPrefix, Laid, Limit, Body, Full;
    var limit := Limit(d, mode, budget);
    var prefix := ChoosePrefix(d, mode, limit);
    if d.logs == [] || Measure(mode, prefix) >= limit {
      out := FitText(mode, prefix, limit, false);
      FittedMeasure(mode, prefix, limit, false, out);
      assert WithoutLogs(d, mode, limit, prefix, out);
      if budget.None? {
        UnboundedKeepsFull(d, mode, prefix, prefix, out);
      }
    } else {
      var body := RenderLogs(d, mode, limit, prefix);
      ghost var laid :| LogsRendered(d, mode, limit, prefix, laid, body);
      out := FitText(mode, body, limit, false);
      FittedMeasure(mode, body, limit, false, out);
      if laid.excerpts != [] {
        SelectedFits(d, mode, limit, laid);
        FitsWhole(mode, body, limit, out);
      }
      if budget.None? {
        BodyStarts(d, mode, prefix, laid.excerpts);
        UnboundedKeepsFull(d, mode, prefix, body, out);
      }
      assert WithLogs(d, mode, limit, laid, out);
    }
  }

  ghost predicate LogsRendered(d: Diagnostic, mode: Mode, limit: nat, prefix: string, layout: Layout, body: string) {
    && Laid(d, mode, limit, layout) && layout.prefix == prefix
    && |layout.excerpts| <= |d.logs| && body == Body(d, mode, prefix, layout.excerpts)
  }

  method RenderLogs(d: Diagnostic, mode: Mode, limit: nat, prefix: string) returns (body: string)
    requires LawfulMode(mode) && IsPrefix(d, mode, limit, prefix) && Measure(mode, prefix) < limit
    ensures exists layout :: LogsRendered(d, mode, limit, prefix, layout, body)
  {
    hide Measure, Fitted, IsPrefix, Selects, HeaderCost, Omission, Join, IsExcerpt, Allocated, LineBreak;
    LineBreakCost(mode);
    var remaining := limit - Measure(mode, prefix) - Measure(mode, LineBreak(mode));
    var n := SelectLogs(d, mode, remaining);
    SelectedBound(d, mode, remaining, n);
    var omission := Omission(d, mode, n);
    var tailBudget := Max(0, remaining - Measure(mode, omission) - HeaderCost(d, mode, n));
    var shares := AllocateDiagnosticBudgets(Demands(d, mode, n), tailBudget);
    SameBudget(Demands(d, mode, n), remaining - Measure(mode, omission) - HeaderCost(d, mode, n), shares);
    var excerpts := CutTails(d, mode, shares);
    body := prefix + LineBreak(mode) + Join(excerpts, LineBreak(mode)) + omission;
    assert LogsRendered(d, mode, limit, prefix, Layout(prefix, shares, excerpts), body);
  }

  lemma BodyStarts(d: Diagnostic, mode: Mode, prefix: string, excerpts: seq<string>)
    requires |excerpts| <= |d.logs|
    ensures prefix <= Body(d, mode, prefix, excerpts)
  {
    hide LineBreak, Join, Omission;
  }

  lemma LineBreakCost(mode: Mode)
    requires LawfulMode(mode)
    ensures Measure(mode, LineBreak(mode)) == 1
  {
    MeasurePoint(mode, LineBreak(mode)[0]);
  }

  lemma SelectedBound(d: Diagnostic, mode: Mode, remaining: nat, n: nat)
    requires Selects(d, mode, remaining, n)
    ensures n <= |d.logs|
  {
  }

  lemma SameBudget(demands: seq<Demand>, budget: int, shares: seq<nat>)
    requires Allocated(demands, Max(0, budget), shares)
    ensures Allocated(demands, budget, shares) && |shares| == |demands|
  {
  }

  lemma FitsWhole(mode: Mode, text: string, limit: int, out: string)
    requires Fitted(mode, text, limit, false, out) && Measure(mode, text) <= limit
    ensures out == text
  {
  }

  /** Without a budget nothing of the complete message before the logs is ever lost. */
  lemma UnboundedKeepsFull(d: Diagnostic, mode: Mode, prefix: string, text: string, out: string)
    requires LawfulMode(mode) && IsPrefix(d, mode, Limit(d, mode, None), prefix) && prefix <= text
    requires Fitted(mode, text, Limit(d, mode, None), false, out)
    ensures Full(d, mode) <= out
  {
    hide Full, Measure;
    var full, limit := Full(d, mode), Limit(d, mode, None);
    assert prefix == full;
    if Measure(mode, text) > limit {
      var n: nat :| LongestFront(mode, text, limit - 1, n) && out == if n == 0 then "" else text[..n] + [ELLIPSIS];
      forall k: nat | k <= |full| ensures Measure(mode, text[..k]) <= Measure(mode, full) {
        assert text[..k] == full[..k];
        MeasurePrefixMono(mode, full, k);
      }
      assert n >= |full|;
      assert full == text[..n][..|full|];
    }
  }

  lemma {:induction false} MeasurePrefixMono(mode: Mode, text: string, n: nat)
    requires n <= |text|
    ensures Measure(mode, text[..n]) <= Measure(mode, text)
  {
    assert text == text[..n] + text[n..];
    MeasureJoin(mode, text[..n], text[n..]);
  }

  // ------------------------------------------------------------- what the reader is told

  ghost predicate Holds(text: string, part: string) {
    exists before, after :: text == before + part + after
  }

  lemma HoldsInside(text: string, outer: string, part: string)
    requires Holds(text, outer) && Holds(outer, part)
    ensures Holds(text, part)
  {
    var a, b :| text == a + outer + b;
    var c, d :| outer == c + part + d;
    assert text == (a + c) + part + (d + b);
  }

  lemma HoldsPart(before: string, part: string, after: string)
    ensures Holds(before + part + after, part) && Holds(before + part, part) && Holds(part + after, part)
  {
    assert before + part == before + part + "";
    assert part + after == "" + part + after;
  }

  lemma {:induction false} JoinHolds(parts: seq<string>, separator: string, i: nat)
    requires i < |parts|
    ensures Holds(Join(parts, separator), parts[i])
  {
    var last := |parts| - 1;
    if |parts| == 1 {
      HoldsPart("", parts[0], "");
      assert "" + parts[0] + "" == parts[0];
    } else if i == last {
      HoldsPart(Join(parts[..last], separator) + separator, parts[i], "");
    } else {
      JoinHolds(parts[..last], separator, i);
      HoldsPart("", Join(parts[..last], separator), separator + parts[last]);
      assert Join(parts, separator) == Join(parts[..last], separator) + (separator + parts[last]);
      HoldsInside(Join(parts, separator), Join(parts[..last], separator), parts[i]);
    }
  }

  lemma {:induction false} PresentHas(parts: seq<string>, part: string)
    ensures part in Present(parts) <==> part != "" && part in parts
  {
    if parts != [] {
      PresentHas(parts[..|parts| - 1], part);
      assert parts == parts[..|parts| - 1] + [parts[|parts| - 1]];
    }
  }

  lemma JoinPresentHolds(parts: seq<string>, separator: string, part: string)
    requires part != "" && part in parts
    ensures Holds(JoinPresent(parts, separator), part)
  {
    PresentHas(parts, part);
    var i :| 0 <= i < |Present(parts)| && Present(parts)[i] == part;
    JoinHolds(Present(parts), separator, i);
  }

  /** The complete message holds the lead, the failure with its count, the next step and how to get the logs. */
  lemma FullTells(d: Diagnostic, mode: Mode)
    ensures d.lead != "" ==> Holds(Full(d, mode), d.lead)
    ensures d.failure != "" ==>
              Holds(Full(d, mode), "Provision error (fail_count=" + d.failCount + "): " + d.failure)
    ensures d.nextStep != "" ==> Holds(Full(d, mode), d.nextStep)
    ensures d.logs != [] ==> Holds(Full(d, mode), "Use get_logs(app_name=\"" + d.appName + "\", tail=200) for more:")
  {
    hide JoinPresent, Holds;
    var logs := "Container logs (preview). " + Lookup(d);
    var parts := [d.lead, if d.failure == "" then "" else FailureLine(d, d.failure), d.nextStep,
                  if d.logs == [] then "" else logs];
    assert parts[0] in parts && parts[1] in parts && parts[2] in parts && parts[3] in parts;
    if d.lead != "" {
      JoinPresentHolds(parts, Separator(mode), d.lead);
    }
    if d.failure != "" {
      JoinPresentHolds(parts, Separator(mode), FailureLine(d, d.failure));
    }
    if d.nextStep != "" {
      JoinPresentHolds(parts, Separator(mode), d.nextStep);
    }
    if d.logs != [] {
      JoinPresentHolds(parts, Separator(mode), logs);
      HoldsPart("Container logs (preview). ", Lookup(d), "");
      HoldsInside(Full(d, mode), logs, Lookup(d));
    }
  }

  /** With nothing missing, the four parts stand one after the other, on paragraphs of their own or on one line. */
  lemma FullIs(d: Diagnostic, mode: Mode)
    requires d.lead != "" && d.failure != "" && d.nextStep != "" && d.logs != []
    ensures var gap := if mode.serialized then " " else "\n\n";
            Full(d, mode) == d.lead + gap + ("Provision error (fail_count=" + d.failCount + "): " + d.failure) + gap
                             + d.nextStep + gap + ("Container logs (preview). " + Lookup(d))
  {
    hide Lookup;
    assert |FailureLine(d, d.failure)| > 0;
    var a, b, c, e := d.lead, FailureLine(d, d.failure), d.nextStep, "Container logs (preview). " + Lookup(d);
    var gap := if mode.serialized then " " else "\n\n";
    hide FailureLine;
    JoinFour(a, b, c, e, gap);
  }

  lemma JoinFour(a: string, b: string, c: string, e: string, gap: string)
    requires a != "" && b != "" && c != "" && e != ""
    ensures JoinPresent([a, b, c, e], gap) == a + gap + b + gap + c + gap + e
  {
    assert [a, b, c, e][..3] == [a, b, c] && [a, b, c][..2] == [a, b] && [a, b][..1] == [a] && [a][..0] == [];
    assert Present([a]) == [a];
    assert Present([a, b]) == [a, b];
    assert Present([a, b, c]) == [a, b, c];
    assert Present([a, b, c, e]) == [a, b, c, e];
    assert Join([a], gap) == a;
    assert Join([a, b], gap) == a + gap + b;
    assert Join([a, b, c], gap) == Join([a, b], gap) + gap + c;
    assert Join([a, b, c, e], gap) == Join([a, b, c], gap) + gap + e;
  }

  /** The text, or what is left of its front or back beside an ellipsis, or nothing. */
  ghost predicate Shortened(text: string, tail: bool, shown: string) {
    shown == text || shown == ""
    || exists kept, lost :: kept != "" && lost != ""
         && (if tail then text == lost + kept && shown == [ELLIPSIS] + kept
             else text == kept + lost && shown == kept + [ELLIPSIS])
  }

  lemma FittedIsShortened(mode: Mode, text: string, limit: int, tail: bool, out: string)
    requires Fitted(mode, text, limit, tail, out)
    ensures Shortened(text, tail, out)
    ensures Measure(mode, text) <= limit ==> out == text
  {
    hide Measure;
    if Measure(mode, text) > limit && limit >= 1 {
      assert text[0..] == text && text[..|text|] == text;
      if tail {
        var n: nat :|
          LongestBack(mode, text, limit - 1, n) && out == if n == |text| then "" else [ELLIPSIS] + text[n..];
        assert n > 0 && text == text[..n] + text[n..];
        hide LongestBack;
        assert n < |text| ==> text[n..] != "";
      } else {
        var n: nat :| LongestFront(mode, text, limit - 1, n) && out == if n == 0 then "" else text[..n] + [ELLIPSIS];
        assert n < |text| && text == text[..n] + text[n..];
        hide LongestFront;
        assert n > 0 ==> text[..n] != "";
      }
    }
  }

  /** The compact form: the verdict, the start of the reason and how to get the logs. */
  ghost predicate CompactTells(d: Diagnostic, mode: Mode, limit: nat, prefix: string, reason: string) {
    && Holds(prefix, "Deployment failed.")
    && Holds(prefix, "Use get_logs(app_name=\"" + d.appName + "\", tail=200) for more:")
    && Measure(mode, reason) <= 96 && 4 * Measure(mode, reason) <= limit
    && Shortened(if d.failure == "" then d.lead else d.failure, false, reason)
    && (if d.failure == "" then reason == "" || Holds(prefix, reason)
        else Holds(prefix, "Provision error (fail_count=" + d.failCount + "): " + reason))
  }

  lemma CompactIs(d: Diagnostic, mode: Mode, reason: string)
    ensures var prefix := CompactText(d, mode, reason);
            && Holds(prefix, "Deployment failed.")
            && Holds(prefix, "Use get_logs(app_name=\"" + d.appName + "\", tail=200) for more:")
            && (if d.failure == "" then reason == "" || Holds(prefix, reason)
                else Holds(prefix, "Provision error (fail_count=" + d.failCount + "): " + reason))
  {
    hide JoinPresent, Holds;
    var parts := ["Deployment failed.", if d.failure == "" then reason else FailureLine(d, reason), Lookup(d)];
    assert parts[0] in parts && parts[1] in parts && parts[2] in parts;
    JoinPresentHolds(parts, Separator(mode), parts[0]);
    JoinPresentHolds(parts, Separator(mode), parts[2]);
    if parts[1] != "" {
      JoinPresentHolds(parts, Separator(mode), parts[1]);
    }
  }

  /** Before the logs stands the complete message, or when it does not fit its compact form. */
  lemma PrefixTells(d: Diagnostic, mode: Mode, limit: nat, prefix: string)
    requires LawfulMode(mode) && IsPrefix(d, mode, limit, prefix)
    ensures if Measure(mode, Full(d, mode)) > limit && d.logs != []
            then exists reason :: CompactTells(d, mode, limit, prefix, reason)
            else prefix == Full(d, mode)
  {
    hide Full, Holds, Measure, CompactText, Fitted, Shortened, LawfulMode;
    if Measure(mode, Full(d, mode)) > limit && d.logs != [] {
      var text := if d.failure == "" then d.lead else d.failure;
      var reason :| Fitted(mode, text, ShortLimit(limit), false, reason) && prefix == CompactText(d, mode, reason);
      FittedMeasure(mode, text, ShortLimit(limit), false, reason);
      FittedIsShortened(mode, text, ShortLimit(limit), false, reason);
      CompactIs(d, mode, reason);
      assert CompactTells(d, mode, limit, prefix, reason);
    }
  }

  /** What a log shows when it shows anything: its text, cleaned for a serialized message, or a remark. */
  ghost predicate LogText(mode: Mode, log: Log, text: string) {
    var raw := if mode.serialized then mode.clean(log.text) else log.text;
    text == if raw == "" then "(no visible log output)" else raw
  }

  /** The name of the service, and under it the log or its end. */
  ghost predicate ExcerptTells(mode: Mode, log: Log, excerpt: string) {
    exists text, tail :: LogText(mode, log, text) && Shortened(text, true, tail)
                      && excerpt == "[" + log.service + "]" + (if mode.serialized then " " else "\n") + tail
  }

  lemma ExcerptIs(mode: Mode, log: Log, share: nat, excerpt: string)
    requires IsExcerpt(mode, log, share, excerpt)
    ensures ExcerptTells(mode, log, excerpt)
  {
    var tail :| Fitted(mode, Shown(mode, log), share, true, tail) && excerpt == Header(mode, log) + tail;
    FittedIsShortened(mode, Shown(mode, log), share, true, tail);
    hide Fitted, Shortened;
    assert LogText(mode, log, Shown(mode, log));
  }

  /** Services that are not shown are counted. */
  ghost predicate CountsOmitted(d: Diagnostic, shown: nat, out: string) {
    d.omittedServices + |d.logs| > shown ==>
      Holds(out, "(" + Decimal(d.omittedServices + |d.logs| - shown) + " more services; use get_logs.)")
  }

  /**
   * What a diagnostic with logs tells: the prefix first, then of the first services each with its log or the end of it,
   * and how many services are missing.
   */
  lemma LogsTell(d: Diagnostic, mode: Mode, limit: nat, layout: Layout, out: string)
    requires WithLogs(d, mode, limit, layout, out) && layout.excerpts != []
    ensures layout.prefix <= out && |layout.excerpts| <= |d.logs|
    ensures forall i :: 0 <= i < |layout.excerpts| ==>
              ExcerptTells(mode, d.logs[i], layout.excerpts[i]) && Holds(out, layout.excerpts[i])
    ensures CountsOmitted(d, |layout.excerpts|, out)
  {
    hide IsPrefix, Selects, Allocated, Fitted, Measure, HeaderCost, Holds, ExcerptTells, Omission, LineBreak, Join;
    hide CountsOmitted, IsExcerpt;
    var excerpts, gap := layout.excerpts, LineBreak(mode);
    var joined, omission := Join(excerpts, gap), Omission(d, mode, |excerpts|);
    TailBudgetCovers(d, mode, limit, layout);
    PartsHold(layout.prefix, gap, joined, omission);
    forall i | 0 <= i < |excerpts| ensures ExcerptTells(mode, d.logs[i], excerpts[i]) && Holds(out, excerpts[i]) {
      ExcerptIs(mode, d.logs[i], layout.shares[i], excerpts[i]);
      JoinHolds(excerpts, gap, i);
      HoldsInside(out, joined, excerpts[i]);
    }
    OmissionCounts(d, mode, |excerpts|);
    CountedInside(d, |excerpts|, out, omission);
  }

  lemma PartsHold(prefix: string, gap: string, joined: string, omission: string)
    ensures var out := prefix + gap + joined + omission;
            prefix <= out && Holds(out, joined) && Holds(out, omission)
  {
    HoldsPart(prefix + gap, joined, omission);
    HoldsPart(prefix + gap + joined, omission, "");
  }

  lemma CountedInside(d: Diagnostic, shown: nat, out: string, part: string)
    requires CountsOmitted(d, shown, part) && Holds(out, part)
    ensures CountsOmitted(d, shown, out)
  {
    hide Holds, Decimal;
    if d.omittedServices + |d.logs| > shown {
      HoldsInside(out, part, "(" + Decimal(d.omittedServices + |d.logs| - shown) + " more services; use get_logs.)");
    }
  }

  lemma OmissionCounts(d: Diagnostic, mode: Mode, shown: nat)
    requires shown <= |d.logs|
    ensures CountsOmitted(d, shown, Omission(d, mode, shown))
  {
    hide Decimal, LineBreak, Holds;
    if d.omittedServices + |d.logs| > shown {
      var count := Decimal(d.omittedServices + |d.logs| - shown);
      var lead := if shown > 0 then LineBreak(mode) else "";
      GroupRight(lead, "(", count, " more services; use get_logs.)");
      HoldsPart(lead, "(" + count + " more services; use get_logs.)", "");
    }
  }

  lemma GroupRight(a: string, b: string, c: string, e: string)
    ensures a + b + c + e == a + (b + c + e)
  {
  }
}
