/** Merging a channel's update export into its existing history (`merge_exports`).

    The update export starts somewhere inside the old history and runs past its end. Walking the
    update from its first message, each message is looked up in the old list, searching onwards
    from the position of the previous match; a found message overwrites the old copy (its content
    may have been edited). The walk stops at the first update message that is not found, and the
    update from that point on is appended. The status gate in front of the step refuses to run
    while another step runs, after a failed download, or before the sorting step succeeded. */
module Merge {
  import opened Wrappers
  import opened Messages
  import opened Exceptions

  // ---------------------------------------------------------------------------------------------
  // find_index

  /** The first position at or after `base` of a message with id `id`. */
  function IndexFrom(msgs: seq<Message>, id: string, base: nat): (r: Option<nat>)
    ensures r.Some? ==> base <= r.value < |msgs| && msgs[r.value].id == id
    ensures r.Some? ==> forall j :: base <= j < r.value ==> msgs[j].id != id
    ensures r.None? ==> forall j :: base <= j < |msgs| ==> msgs[j].id != id
    decreases |msgs| - base
  {
    if base >= |msgs| then None
    else if msgs[base].id == id then Some(base)
    else IndexFrom(msgs, id, base + 1)
  }

  /** `find_index(messages, id, base)`: the loop over `messages[base:]` that breaks at the first
      message with the wanted id. */
  method FindIndex(msgs: seq<Message>, id: string, base: nat) returns (index: Option<nat>)
    ensures index == IndexFrom(msgs, id, base)
  {
    index := None;
    var i := base;
    while i < |msgs|
      invariant base <= i
      invariant IndexFrom(msgs, id, base) == IndexFrom(msgs, id, i)
      decreases |msgs| - i
    {
      if msgs[i].id == id {
        index := Some(i);
        return;
      }
      i := i + 1;
    }
  }

  /** The ids of a list of messages. */
  function Ids(msgs: seq<Message>): (ids: seq<string>)
    ensures |ids| == |msgs|
    ensures forall i :: 0 <= i < |msgs| ==> ids[i] == msgs[i].id
  {
    seq(|msgs|, i requires 0 <= i < |msgs| => msgs[i].id)
  }

  /** The search sees only the ids: two lists with the same ids give the same answer. */
  lemma {:induction false} IndexFromIds(a: seq<Message>, b: seq<Message>, id: string, base: nat)
    requires Ids(a) == Ids(b)
    ensures IndexFrom(a, id, base) == IndexFrom(b, id, base)
    decreases |a| - base
  {
    if base < |a| {
      assert a[base].id == Ids(a)[base] == Ids(b)[base] == b[base].id;
      IndexFromIds(a, b, id, base + 1);
    }
  }

  // ---------------------------------------------------------------------------------------------
  // merge_channel

  /** Where the search for the next update message starts: at the last match, or at 0. */
  function SearchBase(ps: seq<nat>): (r: nat) {
    if ps == [] then 0 else ps[|ps| - 1]
  }

  /** The positions in the old list matched by the first `n` update messages: each search starts
      at the previous match, and the walk stops at the first update message that is not found. */
  function Walk(hist: seq<Message>, upd: seq<Message>, n: nat): (ps: seq<nat>)
    requires n <= |upd|
    ensures |ps| <= n
    ensures forall k :: 0 <= k < |ps| ==> ps[k] < |hist| && hist[ps[k]].id == upd[k].id
  {
    if n == 0 then []
    else
      var ps := Walk(hist, upd, n - 1);
      if |ps| < n - 1 then ps
      else
        match IndexFrom(hist, upd[n - 1].id, SearchBase(ps))
        case None => ps
        case Some(p) => ps + [p]
  }

  /** The positions matched by the whole walk over the update. */
  function Matches(hist: seq<Message>, upd: seq<Message>): (ps: seq<nat>)
    ensures |ps| <= |upd|
    ensures forall k :: 0 <= k < |ps| ==> ps[k] < |hist| && hist[ps[k]].id == upd[k].id
  {
    Walk(hist, upd, |upd|)
  }

  /** Once the walk has stopped it stays stopped. */
  lemma {:induction false} WalkStays(hist: seq<Message>, upd: seq<Message>, n: nat, m: nat)
    requires n <= m <= |upd| && |Walk(hist, upd, n)| < n
    ensures Walk(hist, upd, m) == Walk(hist, upd, n)
    decreases m - n
  {
    if m > n {
      WalkStays(hist, upd, n, m - 1);
    }
  }

  /** The walk, stated position by position: the `k`-th match is the first message with the
      `k`-th update id at or after the previous match. */
  lemma {:induction false} WalkMatchesFirst(hist: seq<Message>, upd: seq<Message>, n: nat)
    requires n <= |upd|
    ensures forall k :: 0 <= k < |Walk(hist, upd, n)| ==>
              Some(Walk(hist, upd, n)[k]) == IndexFrom(hist, upd[k].id, SearchBase(Walk(hist, upd, n)[..k]))
  {
    if n > 0 {
      WalkMatchesFirst(hist, upd, n - 1);
      var prev := Walk(hist, upd, n - 1);
      WalkStep(hist, upd, n);
      if Walk(hist, upd, n) != prev {
        MatchesFirstAppend(hist, upd, prev, IndexFrom(hist, upd[n - 1].id, SearchBase(prev)).value);
      }
    }
  }

  /** Appending the next first match to positions that are each the first match keeps them so. */
  lemma MatchesFirstAppend(hist: seq<Message>, upd: seq<Message>, prev: seq<nat>, p: nat)
    requires |prev| < |upd|
    requires forall k :: 0 <= k < |prev| ==> Some(prev[k]) == IndexFrom(hist, upd[k].id, SearchBase(prev[..k]))
    requires Some(p) == IndexFrom(hist, upd[|prev|].id, SearchBase(prev))
    ensures var ps := prev + [p];
            forall k :: 0 <= k < |ps| ==> Some(ps[k]) == IndexFrom(hist, upd[k].id, SearchBase(ps[..k]))
  {
    var ps := prev + [p];
    forall k | 0 <= k < |ps| ensures Some(ps[k]) == IndexFrom(hist, upd[k].id, SearchBase(ps[..k])) {
      if k < |prev| {
        assert ps[k] == prev[k] && ps[..k] == prev[..k];
      } else {
        assert ps[..k] == prev;
      }
    }
  }

  /** One step of the walk: it stays where it is, or the previous walk was complete and the
      next match is appended. */
  lemma WalkStep(hist: seq<Message>, upd: seq<Message>, n: nat)
    requires 0 < n <= |upd|
    ensures var prev, ps := Walk(hist, upd, n - 1), Walk(hist, upd, n);
            ps == prev || (|prev| == n - 1 && IndexFrom(hist, upd[n - 1].id, SearchBase(prev)).Some?
                           && ps == prev + [IndexFrom(hist, upd[n - 1].id, SearchBase(prev)).value])
  {
  }

  /** The walk ends early only where the search for the next update message fails. */
  lemma {:induction false} WalkStopsAtMiss(hist: seq<Message>, upd: seq<Message>, n: nat)
    requires n <= |upd|
    ensures |Walk(hist, upd, n)| < n ==>
              IndexFrom(hist, upd[|Walk(hist, upd, n)|].id, SearchBase(Walk(hist, upd, n))).None?
  {
    if n > 0 {
      WalkStopsAtMiss(hist, upd, n - 1);
    }
  }

  /** Write `upd[k]` at position `ps[k]`, for each `k` in order. */
  function Overwrite(hist: seq<Message>, upd: seq<Message>, ps: seq<nat>): (r: seq<Message>)
    requires |ps| <= |upd| && forall k :: 0 <= k < |ps| ==> ps[k] < |hist|
    ensures |r| == |hist|
  {
    if ps == [] then hist
    else Overwrite(hist, upd, ps[..|ps| - 1])[ps[|ps| - 1] := upd[|ps| - 1]]
  }

  /** `update_index` after the loop: the index of the first unmatched update message, or the
      index of the LAST update message when all of them matched (0 for an empty update). */
  function UpdateIndex(updLen: nat, matched: nat): (r: nat) {
    if matched < updLen then matched else if updLen == 0 then 0 else updLen - 1
  }

  /** The merged message list as the source computes it. */
  function MergedMessages(hist: seq<Message>, upd: seq<Message>): (r: seq<Message>)
  {
    var ps := Matches(hist, upd);
    Overwrite(hist, upd, ps) + upd[UpdateIndex(|upd|, |ps|)..]
  }

  /** `merge_channel(hist, update)` on the two loaded files; saving the result is left to the
      caller. */
  method MergeChannel(hist: ChannelFile, update: ChannelFile) returns (merged: ChannelFile)
    ensures merged.messages == MergedMessages(hist.messages, update.messages)
    ensures merged.messageCount == |merged.messages| && merged.exportedAt == update.exportedAt
  {
    var full, updateIndex := OverwriteMatched(hist.messages, update.messages);
    full := full + update.messages[updateIndex..];
    merged := ChannelFile(update.exportedAt, |full|, full);
  }

  /** The loop of `merge_channel`: overwrite the matched messages of `full_messages` in place
      and report `update_index`. */
  method OverwriteMatched(hist: seq<Message>, upd: seq<Message>) returns (full: seq<Message>, updateIndex: nat)
    ensures full == Overwrite(hist, upd, Matches(hist, upd))
    ensures updateIndex == UpdateIndex(|upd|, |Matches(hist, upd)|)
  {
    full := hist;
    var fullIndex: nat := 0;
    updateIndex := 0;
    ghost var ps: seq<nat> := [];
    var i := 0;
    while i < |upd|
      invariant 0 <= i <= |upd| && |ps| == i
      invariant ps == Walk(hist, upd, i) && fullIndex == SearchBase(ps)
      invariant full == Overwrite(hist, upd, ps)
      invariant Ids(full) == Ids(hist)
      invariant updateIndex == (if i == 0 then 0 else i - 1)
    {
      updateIndex := i;
      var id := upd[i].id;
      var index := FindIndex(full, id, fullIndex);
      IndexFromIds(full, hist, id, fullIndex);
      if index.None? {
        WalkStays(hist, upd, i + 1, |upd|);
        break;
      }
      var p := index.value;
      OverwriteSnoc(hist, upd, ps, p);
      IdsUpdate(full, p, upd[i]);
      full := full[p := upd[i]];
      fullIndex := p;
      ps := ps + [p];
      i := i + 1;
    }
  }

  lemma OverwriteSnoc(hist: seq<Message>, upd: seq<Message>, ps: seq<nat>, p: nat)
    requires |ps| < |upd| && p < |hist| && forall k :: 0 <= k < |ps| ==> ps[k] < |hist|
    ensures Overwrite(hist, upd, ps + [p]) == Overwrite(hist, upd, ps)[p := upd[|ps|]]
  {
    assert (ps + [p])[..|ps|] == ps;
  }

  lemma IdsUpdate(msgs: seq<Message>, p: nat, m: Message)
    requires p < |msgs| && msgs[p].id == m.id
    ensures Ids(msgs[p := m]) == Ids(msgs)
  {
  }

  // ---------------------------------------------------------------------------------------------
  // What the merge guarantees

  /** Overwriting only ever replaces a message by one with the same id. */
  lemma {:induction false} OverwriteKeepsIds(hist: seq<Message>, upd: seq<Message>, ps: seq<nat>)
    requires |ps| <= |upd| && forall k :: 0 <= k < |ps| ==> ps[k] < |hist| && hist[ps[k]].id == upd[k].id
    ensures Ids(Overwrite(hist, upd, ps)) == Ids(hist)
  {
    if ps != [] {
      OverwriteKeepsIds(hist, upd, ps[..|ps| - 1]);
      var prev := Overwrite(hist, upd, ps[..|ps| - 1]);
      assert Ids(prev)[ps[|ps| - 1]] == prev[ps[|ps| - 1]].id;
    }
  }

  /** The matched positions never move backwards. */
  lemma {:induction false} WalkNondecreasing(hist: seq<Message>, upd: seq<Message>, n: nat)
    requires n <= |upd|
    ensures forall i, j :: 0 <= i <= j < |Walk(hist, upd, n)| ==> Walk(hist, upd, n)[i] <= Walk(hist, upd, n)[j]
  {
    if n > 0 {
      WalkNondecreasing(hist, upd, n - 1);
      var prev := Walk(hist, upd, n - 1);
      var ps := Walk(hist, upd, n);
      if ps != prev {
        var p := IndexFrom(hist, upd[n - 1].id, SearchBase(prev)).value;
        assert ps == prev + [p];
        forall i, j | 0 <= i <= j < |ps| ensures ps[i] <= ps[j] {
          if j == |prev| && i < j {
            assert ps[i] == prev[i] <= prev[|prev| - 1] == SearchBase(prev) <= p;
          } else if j < |prev| {
            assert ps[i] == prev[i] && ps[j] == prev[j];
          }
        }
      }
    }
  }

  /** The merged list keeps the old list's ids, in order, and then holds exactly the update from
      `update_index` on. */
  lemma MergedShape(hist: seq<Message>, upd: seq<Message>)
    ensures var ps := Matches(hist, upd);
            var r := MergedMessages(hist, upd);
            && |r| == |hist| + |upd| - UpdateIndex(|upd|, |ps|)
            && Ids(r[..|hist|]) == Ids(hist)
            && r[|hist|..] == upd[UpdateIndex(|upd|, |ps|)..]
  {
    var ps := Matches(hist, upd);
    OverwriteKeepsIds(hist, upd, ps);
    var r := MergedMessages(hist, upd);
    assert r[..|hist|] == Overwrite(hist, upd, ps);
  }

  /** A message of the old list survives the merge unless an update message with the same id
      was matched to its position; the last matched update message is in the merged list, at the
      position it matched. */
  lemma {:induction false} OverwriteContents(hist: seq<Message>, upd: seq<Message>, ps: seq<nat>)
    requires |ps| <= |upd| && forall k :: 0 <= k < |ps| ==> ps[k] < |hist|
    ensures var r := Overwrite(hist, upd, ps);
            forall j :: 0 <= j < |hist| ==>
              r[j] == hist[j] || exists k :: 0 <= k < |ps| && ps[k] == j && r[j] == upd[k]
    ensures ps != [] ==> Overwrite(hist, upd, ps)[ps[|ps| - 1]] == upd[|ps| - 1]
  {
    if ps != [] {
      var init := ps[..|ps| - 1];
      OverwriteContents(hist, upd, init);
      var prev := Overwrite(hist, upd, init);
      var r := Overwrite(hist, upd, ps);
      forall j | 0 <= j < |hist|
        ensures r[j] == hist[j] || exists k :: 0 <= k < |ps| && ps[k] == j && r[j] == upd[k]
      {
        if j == ps[|ps| - 1] {
          assert r[j] == upd[|ps| - 1];
        } else if prev[j] != hist[j] {
          var k :| 0 <= k < |init| && init[k] == j && prev[j] == upd[k];
          assert ps[k] == j;
        }
      }
    }
  }

  /** An update that does not overlap the old history (its first message is not in it) is
      appended whole. */
  lemma DisjointUpdateAppends(hist: seq<Message>, upd: seq<Message>)
    requires upd != [] && forall j :: 0 <= j < |hist| ==> hist[j].id != upd[0].id
    ensures MergedMessages(hist, upd) == hist + upd
  {
    assert IndexFrom(hist, upd[0].id, 0).None?;
    assert Walk(hist, upd, 1) == [];
    WalkStays(hist, upd, 1, |upd|);
  }

  /** An empty update leaves the history as it was. */
  lemma EmptyUpdateKeepsHistory(hist: seq<Message>)
    ensures MergedMessages(hist, []) == hist
  {
  }

  // ---------------------------------------------------------------------------------------------
  // The duplicated last message

  /** When every update message is found in the old history, the source still appends
      `update[len - 1:]`: the merged list ends with a second copy of the last update message,
      whose id already occurs at the position it matched. */
  lemma FullOverlapDuplicatesLast(hist: seq<Message>, upd: seq<Message>)
    requires upd != [] && |Matches(hist, upd)| == |upd|
    ensures var r := MergedMessages(hist, upd);
            var p := Matches(hist, upd)[|upd| - 1];
            && |r| == |hist| + 1
            && p < |hist| && r[p] == upd[|upd| - 1] && r[|hist|] == upd[|upd| - 1]
  {
    var ps := Matches(hist, upd);
    OverwriteContents(hist, upd, ps);
    var r := MergedMessages(hist, upd);
    assert r[..|hist|] == Overwrite(hist, upd, ps);
    assert r[ps[|ps| - 1]] == r[..|hist|][ps[|ps| - 1]];
  }

  /** The smallest instance: the history `[m]` and the update `[m]` merge into `[m, m]`. */
  lemma DuplicateExample(m: Message)
    ensures MergedMessages([m], [m]) == [m, m]
  {
    assert IndexFrom([m], m.id, 0) == Some(0);
    assert Matches([m], [m]) == [0];
  }

  /** What the walk evidently intends: append only the update messages that were not found. */
  function IntendedMergedMessages(hist: seq<Message>, upd: seq<Message>): (r: seq<Message>)
  {
    var ps := Matches(hist, upd);
    Overwrite(hist, upd, ps) + upd[|ps|..]
  }

  /** With the intended index, nothing is appended twice: the merged list is the old list (ids
      unchanged) followed by exactly the unmatched rest of the update, and an update that lies
      wholly inside the history leaves its length unchanged. */
  lemma IntendedMergeShape(hist: seq<Message>, upd: seq<Message>)
    ensures var ps := Matches(hist, upd);
            var r := IntendedMergedMessages(hist, upd);
            && |r| == |hist| + |upd| - |ps|
            && Ids(r[..|hist|]) == Ids(hist)
            && r[|hist|..] == upd[|ps|..]
            && (|ps| == |upd| ==> Ids(r) == Ids(hist))
  {
    var ps := Matches(hist, upd);
    OverwriteKeepsIds(hist, upd, ps);
    var r := IntendedMergedMessages(hist, upd);
    assert r[..|hist|] == Overwrite(hist, upd, ps);
    if |ps| == |upd| {
      assert r == r[..|hist|];
    }
  }

  /** The two agree whenever some update message is not found. */
  lemma IntendedAgreesOnPartialOverlap(hist: seq<Message>, upd: seq<Message>)
    requires |Matches(hist, upd)| < |upd|
    ensures IntendedMergedMessages(hist, upd) == MergedMessages(hist, upd)
  {
  }

  // ---------------------------------------------------------------------------------------------
  // check_base_status

  /** `check_base_status()` on the `status` object of the channel list (None when the file
      cannot be read or has no `status`): the main status before the step, and the status object
      to save, with `main` and `mergeStatus` set to "running". */
  function CheckBaseStatus(status: Option<map<string, string>>): (r: Result<(string, map<string, string>), Error>)
    ensures r.Success? <==>
              && status.Some? && "main" in status.value && "sortingWriteStatus" in status.value
              && status.value["main"] != "running" && status.value["main"] != "failed"
              && status.value["sortingWriteStatus"] == "success"
    ensures r.Success? ==> r.value.0 == status.value["main"]
    ensures r.Success? ==> "main" in r.value.1 && "mergeStatus" in r.value.1
    ensures r.Success? ==> r.value.1["main"] == "running" && r.value.1["mergeStatus"] == "running"
    ensures r.Success? ==> forall k :: k in status.value && k != "main" && k != "mergeStatus" ==>
                                         k in r.value.1 && r.value.1[k] == status.value[k]
    ensures r.Success? ==> r.value.1.Keys == status.value.Keys + {"main", "mergeStatus"}
    ensures r == Failure(AlreadyRunningError) <==>
              status.Some? && "main" in status.value && status.value["main"] == "running"
    ensures r == Failure(DataNotReadyError) <==>
              && status.Some? && "main" in status.value && status.value["main"] != "running"
              && (|| status.value["main"] == "failed"
                  || ("sortingWriteStatus" in status.value && status.value["sortingWriteStatus"] != "success"))
    ensures r == Failure(MergeError) <==>
              || status.None? || "main" !in status.value
              || (&& status.value["main"] != "running" && status.value["main"] != "failed"
                  && "sortingWriteStatus" !in status.value)
  {
    if status.None? || "main" !in status.value then Failure(MergeError)
    else
      var s := status.value;
      if s["main"] == "running" then Failure(AlreadyRunningError)
      else if s["main"] == "failed" then Failure(DataNotReadyError)
      else if "sortingWriteStatus" !in s then Failure(MergeError)
      else if s["sortingWriteStatus"] != "success" then Failure(DataNotReadyError)
      else Success((s["main"], s["main" := "running"]["mergeStatus" := "running"]))
  }

  /** Once the gate has let a merge through, the saved status keeps any second merge out until
      the first one resets it. */
  lemma GateExcludesSecondRun(status: Option<map<string, string>>)
    requires CheckBaseStatus(status).Success?
    ensures CheckBaseStatus(Some(CheckBaseStatus(status).value.1)) == Failure(AlreadyRunningError)
  {
  }
}
