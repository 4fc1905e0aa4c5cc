/** The chat store as an object: a state value that its actions read and replace, as a vanilla store does. */
module WalletStore {
  import opened Options
  import opened WalletIdentity
  import opened WalletContext
  import opened WalletSafety

  class AIStore {
    const lower: Folding
    var state: Store

    /** Transcripts hold their own identity's rows, hidden ones nothing open, and an open card is authorized. */
    ghost predicate Valid()
      reads this
    {
      Sound(state, lower)
    }

    constructor (chainId: string, storage: map<Identity, seq<Message>>, lower: Folding)
      requires StorageSound(storage)
      ensures Valid() && state == Initial(chainId, storage) && this.lower == lower
    {
      this.lower, state := lower, Initial(chainId, storage);
      RunKeepsSound(chainId, storage, [], lower);
    }

    /**
     * A change of wallet or network invalidates whatever was authorized or going on, puts the closed transcript of an
     * identity that is left away, and shows no row of any other identity.
     */
    method SetWalletContext(change: Change)
      requires Valid()
      modifies this
      ensures Valid() && state == WalletContext.SetWalletContext(old(state), change, lower)
      ensures state.wallet == change.next && OwnedBy(state.messages, state.identity)
      ensures change.next != old(state).wallet ==>
                && state.pending.None? && state.active.None? && state.work == IDLE && Settled(state.messages)
                && state.epoch == old(state).epoch + 1
      ensures old(state).identity.Some? && state.identity != old(state).identity ==>
                && old(state).identity.value in state.cache
                && state.cache[old(state).identity.value] == Closed(old(state), change.noticeId)
    {
      WalletChangeKeepsSound(state, change, lower);
      ChangeCloses(state, change, lower);
      hide Sound, Closed, CacheTranscript, OpenTranscript, Create, OwnedBy, Settled;
      var current, next := state, change.next;
      var clientChanged := next.client != current.wallet.client;
      var addressChanged := next.address != current.wallet.address;
      var signerChanged := next.signing != current.wallet.signing;
      var chainChanged := next.chainId != current.wallet.chainId;
      if !clientChanged && !addressChanged && !signerChanged && !chainChanged {
        return;
      }
      var candidate := Create(next.chainId, next.address, lower);
      var closed := Closed(current, change.noticeId);
      if candidate != current.identity {
        if current.identity.Some? {
          state := CacheTranscript(state, closed, change.writeOk);
        }
        state := OpenTranscript(state, candidate, change.readOk);
      } else {
        state := state.(messages := closed);
      }
      state := Published(state, next, candidate);
    }

    /** The row becomes the last one; the rows before it are the newest of those that were there. */
    method AddMessage(row: Message)
      requires Valid() && Addable(state, row)
      modifies this
      ensures Valid() && state == old(state).(messages := state.messages)
      ensures 0 < |state.messages| <= AI_MAX_MESSAGES && state.messages[|state.messages| - 1] == row
      ensures var kept := |state.messages| - 1;
              && kept <= |old(state).messages| && (kept < |old(state).messages| ==> kept + 1 == AI_MAX_MESSAGES)
              && state.messages[..kept] == old(state).messages[|old(state).messages| - kept..]
    {
      hide Sound;
      AddKeepsSound(state, row, lower);
      state := state.(messages := Trimmed(state.messages + [row]));
    }

    /**
     * Nothing of the visible transcript is left, in the session or in storage, and no other transcript is touched;
     * while a transaction runs nothing happens at all.
     */
    method ClearHistory()
      requires Valid()
      modifies this
      ensures Valid() && (old(state).active.Some? ==> state == old(state))
      ensures old(state).active.None? ==>
                && state.messages == [] && state.pending.None? && state.work == IDLE
                && state.epoch == old(state).epoch + 1 && state.wallet == old(state).wallet
                && state.identity == old(state).identity
      ensures old(state).active.None? && state.identity.Some? ==>
                && OpenTranscript(state, state.identity, true).messages == []
                && LoadHistory(state.storage, state.identity.value, true) == []
      ensures forall k :: state.identity != Some(k) ==> SameTranscript(old(state), state, k)
    {
      hide Sound, Cleared, OpenTranscript, LoadHistory;
      ClearingKeepsSound(state, lower);
      if state.active.Some? {
        return;
      }
      var cleared := state.(messages := [], pending := None, work := IDLE, epoch := state.epoch + 1);
      if state.identity.Some? {
        var identity := state.identity.value;
        cleared := cleared.(cache := state.cache[identity := []], storage := state.storage - {identity});
        ClearedShowsNothing(state, identity);
      }
      ClearedIs(state);
      forall k | state.identity != Some(k) ensures SameTranscript(state, cleared, k) {
        ClearedShowsNothing(state, k);
      }
      state := cleared;
    }

    /** Another tab cleared all of storage: every session copy but that of the visible transcript is dropped. */
    method HandleStorageCleared()
      requires Valid()
      modifies this
      ensures Valid() && state == ForgetHidden(old(state))
    {
      hide Sound;
      ClearingKeepsSound(state, lower);
      var before, keys := state, state.cache.Keys;
      while keys != {}
        invariant keys <= before.cache.Keys && state == before.(cache := state.cache)
        invariant forall k :: k in state.cache <==> k in before.cache && (k in keys || before.identity == Some(k))
        invariant forall k :: k in state.cache ==> state.cache[k] == before.cache[k]
        decreases |keys|
      {
        var key :| key in keys;
        keys := keys - {key};
        if before.identity != Some(key) {
          state := state.(cache := state.cache - {key});
        }
      }
      assert state.cache == ForgetHidden(before).cache;
    }

    /** Settles a row in the transcript it belongs to, visible or hidden. */
    method UpdateOriginatingTranscript(identity: Identity, id: string, outcome: Outcome, writeOk: bool, readOk: bool)
      requires Valid() && (state.identity == Some(identity) ==> Unused(state, outcome.noticeId))
      modifies this
      ensures Valid() && state == FinishStaleTool(old(state), FinishStale(identity, id, outcome, writeOk, readOk))
    {
      FinishStaleKeepsSound(state, FinishStale(identity, id, outcome, writeOk, readOk), lower);
      hide Sound, SaveHistory, LoadHistory, HasRow, Finished;
      var visible := state.identity == Some(identity);
      var source := state.messages;
      if !visible {
        source :=
          if identity in state.cache then state.cache[identity]
          else LoadHistory(state.storage, identity, readOk);
      }
      if !HasRow(source, id) {
        return;
      }
      var updated := Finished(source, identity, id, outcome);
      if visible {
        state := state.(messages := updated);
        return;
      }
      state := state.(cache := state.cache[identity := updated]);
      state := state.(storage := SaveHistory(state.storage, identity, updated, writeOk));
    }
  }
}
