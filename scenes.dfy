/** Scene aggregation for one channel and its roll-up per category and for the whole backup.

    For a channel, the authors whose id is below 1000 are the role-play characters; the scene
    finder (a separate component) is asked once per character for that character's scenes; the
    scenes are collected, a scene being dropped when an earlier one had the same start message;
    the list is sorted by start timestamp and renumbered 1..n. A category concatenates the scene
    lists of its channel files, sorts and renumbers again; the backup does the same over the
    categories. */
module Scenes {
  import opened Wrappers
  import opened Strings
  import opened Sorting
  import opened Messages
  import opened Exceptions

  /** Author ids below this are role-play characters; higher ones are human accounts. */
  const CharacterIdLimit := 1000

  /** The start or end message of a scene; the timestamp is an opaque, totally ordered key. */
  datatype MessageRef = MessageRef(id: string, timestamp: int)

  /** A scene as the scene finder reports it, with the `sceneId` this module assigns. */
  datatype Scene = Scene(start: MessageRef, end: MessageRef, characters: seq<int>, channel: string,
                         sceneId: int)

  /** The per-character scene finder, `find_character_scenes_in_channel(channel, characters,
      start, deep)`: its scenes and a resume id that this module ignores. */
  type SceneFinder = (ChannelFile, seq<int>, int, bool) -> (seq<Scene>, string)

  /** The arguments of one call to the scene finder (besides the channel). */
  datatype FinderCall = FinderCall(characters: seq<int>, start: int, deep: bool)

  /** The sort key `scene["start"]["timestamp"]`. */
  function SceneKey(s: Scene): (r: (int, int)) {
    (s.start.timestamp, 0)
  }

  // ---------------------------------------------------------------------------------------------
  // The characters of a channel

  /** `int(message["author"]["id"])` for every message, or None when one of them is not an
      integer (the ValueError that aborts the channel). */
  function AuthorIds(msgs: seq<Message>): (r: Option<seq<int>>)
    ensures r.Some? ==> |r.value| == |msgs|
    ensures r.Some? ==> forall i :: 0 <= i < |msgs| ==> ParseInt(msgs[i].author.id) == Some(r.value[i])
    ensures r.None? ==> exists i :: 0 <= i < |msgs| && ParseInt(msgs[i].author.id).None?
  {
    if msgs == [] then Some([])
    else
      match AuthorIds(msgs[..|msgs| - 1])
      case None => None
      case Some(ids) =>
        match ParseInt(msgs[|msgs| - 1].author.id)
        case None => None
        case Some(c) => Some(ids + [c])
  }

  /** The distinct character ids of a channel, in order of first appearance. */
  function Characters(ids: seq<int>): (r: seq<int>) {
    if ids == [] then []
    else
      var chars := Characters(ids[..|ids| - 1]);
      var c := ids[|ids| - 1];
      if c < CharacterIdLimit && c !in chars then chars + [c] else chars
  }

  /** The character list holds exactly the ids below 1000, each once, and lists them in order of
      first appearance: whatever precedes a character in the list has already appeared before
      any message of that character. */
  lemma {:induction false} CharactersSpec(ids: seq<int>)
    ensures forall c :: c in Characters(ids) <==> c in ids && c < CharacterIdLimit
    ensures forall i, j :: 0 <= i < j < |Characters(ids)| ==> Characters(ids)[i] != Characters(ids)[j]
    ensures forall i, j, q :: 0 <= i < j < |Characters(ids)| && 0 <= q < |ids| && ids[q] == Characters(ids)[j]
                              ==> Characters(ids)[i] in ids[..q]
  {
    if ids != [] {
      var init, c := ids[..|ids| - 1], ids[|ids| - 1];
      CharactersSpec(init);
      assert ids == init + [c];
      var before, chars := Characters(init), Characters(ids);
      forall i, j, q | 0 <= i < j < |chars| && 0 <= q < |ids| && ids[q] == chars[j]
        ensures chars[i] in ids[..q]
      {
        if q < |init| {
          assert init[q] == ids[q];
          assert chars[j] in before;
          assert j < |before|;
          assert chars[i] == before[i] && chars[j] == before[j];
          assert init[..q] == ids[..q];
        } else {
          assert chars[i] in before;
          assert ids[..q] == init;
        }
      }
    }
  }

  lemma {:induction false} NoLowIdsNoCharacters(ids: seq<int>)
    requires forall q :: 0 <= q < |ids| ==> ids[q] >= CharacterIdLimit
    ensures Characters(ids) == []
  {
    if ids != [] {
      NoLowIdsNoCharacters(ids[..|ids| - 1]);
    }
  }

  /** The loop over the messages that builds `characters_in_channel`. */
  method EnumerateCharacters(msgs: seq<Message>) returns (r: Result<seq<int>, Error>)
    ensures AuthorIds(msgs).None? ==> r == Failure(ValueError)
    ensures AuthorIds(msgs).Some? ==> r == Success(Characters(AuthorIds(msgs).value))
  {
    var chars: seq<int> := [];
    ghost var ids: seq<int> := [];
    var i := 0;
    while i < |msgs|
      invariant 0 <= i <= |msgs|
      invariant AuthorIds(msgs[..i]) == Some(ids)
      invariant chars == Characters(ids)
    {
      var ok;
      ok, chars, ids := AddAuthor(msgs, i, chars, ids);
      if !ok {
        FirstFailurePoisons(msgs, i + 1);
        return Failure(ValueError);
      }
      i := i + 1;
    }
    assert msgs[..i] == msgs;
    r := Success(chars);
  }

  /** The body of the loop for message `i`: `int()` of its author id (false where that raises),
      and the id appended to the characters if it is below the limit and new. */
  method AddAuthor(msgs: seq<Message>, i: nat, chars: seq<int>, ghost ids: seq<int>)
    returns (ok: bool, chars': seq<int>, ghost ids': seq<int>)
    requires i < |msgs| && AuthorIds(msgs[..i]) == Some(ids) && chars == Characters(ids)
    ensures !ok ==> AuthorIds(msgs[..i + 1]).None?
    ensures ok ==> AuthorIds(msgs[..i + 1]) == Some(ids') && chars' == Characters(ids')
  {
    var parsed := ParseInt(msgs[i].author.id);
    AuthorIdsStep(msgs, i, ids);
    chars', ids' := chars, ids;
    if parsed.None? {
      return false, chars', ids';
    }
    var c := parsed.value;
    CharactersStep(ids, c);
    if c < CharacterIdLimit && c !in chars {
      chars' := chars + [c];
    }
    ids' := ids + [c];
    ok := true;
  }

  lemma AuthorIdsStep(msgs: seq<Message>, i: nat, ids: seq<int>)
    requires i < |msgs| && AuthorIds(msgs[..i]) == Some(ids)
    ensures ParseInt(msgs[i].author.id).None? ==> AuthorIds(msgs[..i + 1]).None?
    ensures ParseInt(msgs[i].author.id).Some? ==>
              AuthorIds(msgs[..i + 1]) == Some(ids + [ParseInt(msgs[i].author.id).value])
  {
    assert msgs[..i + 1][..i] == msgs[..i];
  }

  lemma CharactersStep(ids: seq<int>, c: int)
    ensures Characters(ids + [c]) ==
              if c < CharacterIdLimit && c !in Characters(ids) then Characters(ids) + [c] else Characters(ids)
  {
    assert (ids + [c])[..|ids|] == ids;
  }

  lemma FirstFailurePoisons(msgs: seq<Message>, n: nat)
    requires 0 < n <= |msgs| && AuthorIds(msgs[..n]).None?
    ensures AuthorIds(msgs).None?
  {
    var i :| 0 <= i < n && ParseInt(msgs[..n][i].author.id).None?;
    assert msgs[..n][i] == msgs[i];
  }

  // ---------------------------------------------------------------------------------------------
  // Collecting the traces, dropping repeated starts

  /** The scenes of every character, in the order of the characters and, within one character,
      in the order the scene finder returned them. */
  function Traces(ch: ChannelFile, finder: SceneFinder, chars: seq<int>): (r: seq<Scene>) {
    if chars == [] then []
    else Traces(ch, finder, chars[..|chars| - 1]) + finder(ch, [chars[|chars| - 1]], 0, true).0
  }

  /** One call `(channel, [character], 0, True)` per character, in order. */
  function CallsFor(chars: seq<int>): (calls: seq<FinderCall>)
    ensures |calls| == |chars|
    ensures forall i :: 0 <= i < |chars| ==> calls[i] == FinderCall([chars[i]], 0, true)
  {
    seq(|chars|, i requires 0 <= i < |chars| => FinderCall([chars[i]], 0, true))
  }

  function StartIds(s: seq<Scene>): (ids: seq<string>)
    ensures |ids| == |s|
    ensures forall i :: 0 <= i < |s| ==> ids[i] == s[i].start.id
  {
    seq(|s|, i requires 0 <= i < |s| => s[i].start.id)
  }

  /** No earlier scene of `s` starts at the same message as `s[i]`. */
  predicate IsFirstStart(s: seq<Scene>, i: int)
    requires 0 <= i < |s|
  {
    forall j :: 0 <= j < i ==> s[j].start.id != s[i].start.id
  }

  /** The scenes kept by `total_scenes`/`scene_starts_lookup`: a scene is appended when its start
      id has not been seen. */
  function Dedup(s: seq<Scene>): (r: seq<Scene>) {
    if s == [] then []
    else
      var kept := Dedup(s[..|s| - 1]);
      if s[|s| - 1].start.id in StartIds(kept) then kept else kept + [s[|s| - 1]]
  }

  /** No two scenes of the list start at the same message. */
  predicate DistinctStarts(s: seq<Scene>) {
    forall i, j :: 0 <= i < j < |s| ==> s[i].start.id != s[j].start.id
  }

  /** No two kept scenes share a start; every start is kept; a kept scene is the first one with
      its start (later duplicates are dropped, not merged), and every such first scene is kept. */
  lemma DedupSpec(s: seq<Scene>)
    ensures DistinctStarts(Dedup(s))
    ensures forall i :: 0 <= i < |s| ==> s[i].start.id in StartIds(Dedup(s))
    ensures forall k :: 0 <= k < |Dedup(s)| ==>
              exists i :: 0 <= i < |s| && s[i] == Dedup(s)[k] && IsFirstStart(s, i)
    ensures forall i :: 0 <= i < |s| && IsFirstStart(s, i) ==> s[i] in Dedup(s)
  {
    DedupDistinct(s);
    DedupKeepsStarts(s);
    DedupKeepsFirsts(s);
    DedupFirstsKept(s);
  }

  lemma {:induction false} DedupDistinct(s: seq<Scene>)
    ensures DistinctStarts(Dedup(s))
  {
    if s != [] {
      var kept, x := Dedup(s[..|s| - 1]), s[|s| - 1];
      DedupDistinct(s[..|s| - 1]);
      if x.start.id !in StartIds(kept) {
        forall i | 0 <= i < |kept| ensures kept[i].start.id != x.start.id {
          assert StartIds(kept)[i] == kept[i].start.id;
        }
      }
    }
  }

  lemma {:induction false} DedupKeepsStarts(s: seq<Scene>)
    ensures forall i :: 0 <= i < |s| ==> s[i].start.id in StartIds(Dedup(s))
  {
    if s != [] {
      var init, x := s[..|s| - 1], s[|s| - 1];
      var kept, d := Dedup(init), Dedup(s);
      DedupKeepsStarts(init);
      forall i | 0 <= i < |s| ensures s[i].start.id in StartIds(d) {
        if i < |init| {
          assert init[i] == s[i];
          var m :| 0 <= m < |kept| && StartIds(kept)[m] == init[i].start.id;
          assert StartIds(d)[m] == s[i].start.id;
        } else if x.start.id !in StartIds(kept) {
          assert StartIds(d)[|d| - 1] == s[i].start.id;
        }
      }
    }
  }

  lemma {:induction false} DedupKeepsFirsts(s: seq<Scene>)
    ensures forall k :: 0 <= k < |Dedup(s)| ==>
              exists i :: 0 <= i < |s| && s[i] == Dedup(s)[k] && IsFirstStart(s, i)
  {
    if s != [] {
      var init, x := s[..|s| - 1], s[|s| - 1];
      var kept, d := Dedup(init), Dedup(s);
      DedupKeepsFirsts(init);
      var isNew := x.start.id !in StartIds(kept);
      assert d == if isNew then kept + [x] else kept;
      forall k | 0 <= k < |kept| ensures exists i :: 0 <= i < |s| && s[i] == d[k] && IsFirstStart(s, i) {
        var i :| 0 <= i < |init| && init[i] == kept[k] && IsFirstStart(init, i);
        assert forall j :: 0 <= j <= i ==> init[j] == s[j];
        assert s[i] == d[k] && IsFirstStart(s, i);
      }
      if isNew {
        DedupKeepsStarts(init);
        forall j | 0 <= j < |s| - 1 ensures s[j].start.id != x.start.id {
          assert init[j] == s[j];
          assert init[j].start.id in StartIds(kept);
        }
        assert s[|s| - 1] == d[|kept|] && IsFirstStart(s, |s| - 1);
      }
    } else {
      assert Dedup(s) == [];
    }
  }

  lemma {:induction false} DedupFirstsKept(s: seq<Scene>)
    ensures forall i :: 0 <= i < |s| && IsFirstStart(s, i) ==> s[i] in Dedup(s)
  {
    if s != [] {
      var init, x := s[..|s| - 1], s[|s| - 1];
      var kept, d := Dedup(init), Dedup(s);
      DedupFirstsKept(init);
      forall i | 0 <= i < |s| && IsFirstStart(s, i) ensures s[i] in d {
        if i < |init| {
          assert init[i] == s[i];
          assert IsFirstStart(init, i) by {
            assert forall j :: 0 <= j < i ==> init[j] == s[j];
          }
        } else {
          DedupKeepsFirsts(init);
        }
      }
    }
  }

  // ---------------------------------------------------------------------------------------------
  // Sorting and renumbering, the same at the three levels

  /** `scene["sceneId"] = i + 1` for the scene at position `i`. */
  function Renumbered(s: seq<Scene>): (r: seq<Scene>)
    ensures |r| == |s|
  {
    seq(|s|, i requires 0 <= i < |s| => s[i].(sceneId := i + 1))
  }

  /** Sort by start timestamp (stably), then renumber. */
  function Organise(s: seq<Scene>): (r: seq<Scene>) {
    Renumbered(SortBy(s, SceneKey))
  }

  /** A scene with its number blanked out: what sorting and renumbering must not change. */
  function Unnumbered(x: Scene): (r: Scene) {
    x.(sceneId := 0)
  }

  /** What sorting and renumbering produce: the same scenes (up to their numbers), ordered by
      start timestamp, with scenes of equal timestamp in their original order, numbered 1..n. */
  lemma OrganiseSpec(s: seq<Scene>)
    ensures |Organise(s)| == |s|
    ensures SortedBy(Organise(s), SceneKey)
    ensures forall i :: 0 <= i < |s| ==> Organise(s)[i].sceneId == i + 1
    ensures multiset(MapSeq(Unnumbered, Organise(s))) == multiset(MapSeq(Unnumbered, s))
    ensures forall k :: WithKey(MapSeq(Unnumbered, Organise(s)), SceneKey, k)
                        == WithKey(MapSeq(Unnumbered, s), SceneKey, k)
  {
    SortBySorted(s, SceneKey);
    OrganisePermutes(s);
    forall k ensures WithKey(MapSeq(Unnumbered, Organise(s)), SceneKey, k)
                     == WithKey(MapSeq(Unnumbered, s), SceneKey, k) {
      SortByStable(MapSeq(Unnumbered, s), SceneKey, k);
    }
  }

  /** Blanking the numbers after sorting and renumbering is sorting the blanked list. */
  lemma OrganisePermutes(s: seq<Scene>)
    ensures MapSeq(Unnumbered, Organise(s)) == SortBy(MapSeq(Unnumbered, s), SceneKey)
    ensures multiset(MapSeq(Unnumbered, Organise(s))) == multiset(MapSeq(Unnumbered, s))
  {
    SortByMap(Unnumbered, s, SceneKey);
    assert MapSeq(Unnumbered, Organise(s)) == MapSeq(Unnumbered, SortBy(s, SceneKey));
  }

  /** `total_scenes.sort(key=...)` followed by the renumbering loop. */
  method SortAndRenumber(scenes: seq<Scene>) returns (r: seq<Scene>)
    ensures r == Organise(scenes)
  {
    var sorted := SortBy(scenes, SceneKey);
    r := sorted;
    var i := 0;
    while i < |r|
      invariant 0 <= i <= |r| == |sorted|
      invariant forall k :: 0 <= k < i ==> r[k] == sorted[k].(sceneId := k + 1)
      invariant forall k :: i <= k < |r| ==> r[k] == sorted[k]
    {
      r := r[i := r[i].(sceneId := i + 1)];
      i := i + 1;
    }
  }

  // ---------------------------------------------------------------------------------------------
  // One channel

  /** `find_all_scenes_in_channel(channel)`. */
  function ChannelScenes(ch: ChannelFile, finder: SceneFinder): (r: Result<seq<Scene>, Error>) {
    match AuthorIds(ch.messages)
    case None => Failure(ValueError)
    case Some(ids) => Success(Organise(Dedup(Traces(ch, finder, Characters(ids)))))
  }

  /** `find_all_scenes_in_channel(channel)`: enumerate the characters, call the scene finder once
      for each of them (the calls made are returned in `calls`), keep the scenes with a new start,
      sort and renumber. */
  method FindAllScenesInChannel(ch: ChannelFile, finder: SceneFinder)
    returns (r: Result<seq<Scene>, Error>, calls: seq<FinderCall>)
    ensures r == ChannelScenes(ch, finder)
    ensures r.Success? ==> calls == CallsFor(Characters(AuthorIds(ch.messages).value))
    ensures r.Failure? ==> calls == []
  {
    var enumerated := EnumerateCharacters(ch.messages);
    if enumerated.Failure? {
      return Failure(enumerated.error), [];
    }
    var chars := enumerated.value;
    var total: seq<Scene> := [];
    var lookup: seq<string> := [];
    calls := [];
    var k := 0;
    while k < |chars|
      invariant 0 <= k <= |chars|
      invariant total == Dedup(Traces(ch, finder, chars[..k]))
      invariant lookup == StartIds(total)
      invariant calls == CallsFor(chars[..k])
    {
      var found := finder(ch, [chars[k]], 0, true);
      var scenes := found.0;
      calls := calls + [FinderCall([chars[k]], 0, true)];
      total, lookup := CollectNewStarts(total, lookup, scenes, Traces(ch, finder, chars[..k]));
      TracesStep(ch, finder, chars, k);
      CallsForStep(chars, k);
      k := k + 1;
    }
    assert chars[..k] == chars;
    total := SortAndRenumber(total);
    r := Success(total);
  }

  /** The inner loop of the aggregation: append each scene whose start id is not yet in
      `scene_starts_lookup`, and record its start id there. */
  method CollectNewStarts(total: seq<Scene>, lookup: seq<string>, scenes: seq<Scene>, ghost before: seq<Scene>)
    returns (total': seq<Scene>, lookup': seq<string>)
    requires total == Dedup(before) && lookup == StartIds(total)
    ensures total' == Dedup(before + scenes) && lookup' == StartIds(total')
  {
    total', lookup' := total, lookup;
    assert before + scenes[..0] == before;
    var j := 0;
    while j < |scenes|
      invariant 0 <= j <= |scenes|
      invariant total' == Dedup(before + scenes[..j])
      invariant lookup' == StartIds(total')
    {
      PrefixSnoc(before, scenes, j);
      total', lookup' := AddIfNewStart(total', lookup', scenes[j], before + scenes[..j]);
      j := j + 1;
    }
    assert scenes[..j] == scenes;
  }

  lemma PrefixSnoc(before: seq<Scene>, scenes: seq<Scene>, j: nat)
    requires j < |scenes|
    ensures before + scenes[..j + 1] == before + scenes[..j] + [scenes[j]]
  {
    assert scenes[..j + 1] == scenes[..j] + [scenes[j]];
  }

  /** The body of the inner loop: a scene whose start id is not yet in the lookup is appended,
      and its start id recorded. */
  method AddIfNewStart(total: seq<Scene>, lookup: seq<string>, scene: Scene, ghost seen: seq<Scene>)
    returns (total': seq<Scene>, lookup': seq<string>)
    requires total == Dedup(seen) && lookup == StartIds(total)
    ensures total' == Dedup(seen + [scene]) && lookup' == StartIds(total')
  {
    DedupStep(seen, scene);
    total', lookup' := total, lookup;
    if scene.start.id !in lookup {
      StartIdsAppend(total, scene);
      lookup' := lookup + [scene.start.id];
      total' := total + [scene];
    }
  }

  lemma TracesStep(ch: ChannelFile, finder: SceneFinder, chars: seq<int>, k: nat)
    requires k < |chars|
    ensures Traces(ch, finder, chars[..k + 1]) == Traces(ch, finder, chars[..k]) + finder(ch, [chars[k]], 0, true).0
  {
    assert chars[..k + 1][..k] == chars[..k];
  }

  lemma CallsForStep(chars: seq<int>, k: nat)
    requires k < |chars|
    ensures CallsFor(chars[..k + 1]) == CallsFor(chars[..k]) + [FinderCall([chars[k]], 0, true)]
  {
  }

  lemma DedupStep(s: seq<Scene>, x: Scene)
    ensures Dedup(s + [x]) == if x.start.id in StartIds(Dedup(s)) then Dedup(s) else Dedup(s) + [x]
  {
    assert (s + [x])[..|s|] == s;
  }

  lemma StartIdsAppend(s: seq<Scene>, x: Scene)
    ensures StartIds(s + [x]) == StartIds(s) + [x.start.id]
  {
  }

  /** A channel where no author is a character (in particular, one with no messages) yields no
      scenes, and the scene finder is not called. */
  lemma NoCharactersNoScenes(ch: ChannelFile, finder: SceneFinder)
    requires forall i :: 0 <= i < |ch.messages| ==>
               ParseInt(ch.messages[i].author.id).Some? && ParseInt(ch.messages[i].author.id).value >= CharacterIdLimit
    ensures ChannelScenes(ch, finder) == Success([])
    ensures CallsFor(Characters(AuthorIds(ch.messages).value)) == []
  {
    var msgs := ch.messages;
    assert AuthorIds(msgs).Some?;
    var ids := AuthorIds(msgs).value;
    forall q | 0 <= q < |ids| ensures ids[q] >= CharacterIdLimit {
      assert ParseInt(msgs[q].author.id) == Some(ids[q]);
    }
    NoLowIdsNoCharacters(ids);
  }

  /** Sorting and renumbering add no scene (up to its number): `k` in the result comes from
      `m` in the input. */
  lemma OrganiseKeepsScene(s: seq<Scene>, k: int) returns (m: int)
    requires 0 <= k < |Organise(s)|
    ensures 0 <= m < |s| && Unnumbered(s[m]) == Unnumbered(Organise(s)[k])
  {
    OrganisePermutes(s);
    m := PermutationMember(MapSeq(Unnumbered, Organise(s)), MapSeq(Unnumbered, s), k);
  }

  /** Sorting and renumbering lose no scene (up to its number): `m` in the input ends up as `k`
      in the result. */
  lemma OrganiseLosesNoScene(s: seq<Scene>, m: int) returns (k: int)
    requires 0 <= m < |s|
    ensures 0 <= k < |Organise(s)| && Unnumbered(Organise(s)[k]) == Unnumbered(s[m])
  {
    OrganisePermutes(s);
    k := PermutationMember(MapSeq(Unnumbered, s), MapSeq(Unnumbered, Organise(s)), m);
  }

  /** Sorting and renumbering keep the starts of a list distinct. */
  lemma OrganiseKeepsDistinct(s: seq<Scene>)
    requires DistinctStarts(s)
    ensures DistinctStarts(Organise(s))
  {
    var r := Organise(s);
    OrganisePermutes(s);
    var u, us := MapSeq(Unnumbered, r), MapSeq(Unnumbered, s);
    PermutationKeepsDistinct(s, u, us);
    forall i, j | 0 <= i < j < |r| ensures r[i].start.id != r[j].start.id {
      assert u[i].start.id == r[i].start.id && u[j].start.id == r[j].start.id;
    }
  }

  /** A rearrangement of the (unnumbered) scenes of a list with distinct starts has distinct starts. */
  lemma PermutationKeepsDistinct(s: seq<Scene>, u: seq<Scene>, us: seq<Scene>)
    requires DistinctStarts(s) && us == MapSeq(Unnumbered, s) && multiset(u) == multiset(us)
    ensures DistinctStarts(u)
  {
    var startId := (x: Scene) => x.start.id;
    assert forall i, j :: 0 <= i < j < |us| ==> startId(us[i]) != startId(us[j]) by {
      forall i, j | 0 <= i < j < |us| ensures startId(us[i]) != startId(us[j]) {
        assert s[i].start.id != s[j].start.id;
      }
    }
    PermutationKeepsDistinctBy(u, us, startId);
  }

  /** The scenes found by the characters of a channel, in the order the loop visits them. */
  function ChannelTraces(ch: ChannelFile, finder: SceneFinder): (r: seq<Scene>)
    requires AuthorIds(ch.messages).Some?
  {
    Traces(ch, finder, Characters(AuthorIds(ch.messages).value))
  }

  /** The channel's list is sorted by start timestamp, numbered 1..n, and no two of its scenes
      start at the same message. */
  lemma ChannelScenesOrdered(ch: ChannelFile, finder: SceneFinder)
    requires ChannelScenes(ch, finder).Success?
    ensures var r := ChannelScenes(ch, finder).value;
            && SortedBy(r, SceneKey)
            && (forall i :: 0 <= i < |r| ==> r[i].sceneId == i + 1)
            && DistinctStarts(r)
  {
    var d := Dedup(ChannelTraces(ch, finder));
    DedupDistinct(ChannelTraces(ch, finder));
    OrganiseSpec(d);
    OrganiseKeepsDistinct(d);
  }

  /** Every scene a character's trace reports has its start in the channel's list. */
  lemma ChannelScenesComplete(ch: ChannelFile, finder: SceneFinder)
    requires ChannelScenes(ch, finder).Success?
    ensures var r, all := ChannelScenes(ch, finder).value, ChannelTraces(ch, finder);
            forall i :: 0 <= i < |all| ==> exists k :: 0 <= k < |r| && r[k].start.id == all[i].start.id
  {
    var all := ChannelTraces(ch, finder);
    var d := Dedup(all);
    var r := Organise(d);
    assert r == ChannelScenes(ch, finder).value;
    DedupKeepsStarts(all);
    forall i | 0 <= i < |all| ensures exists k :: 0 <= k < |r| && r[k].start.id == all[i].start.id {
      var k := OrganiseKeepsStart(d, all[i].start.id);
    }
  }

  /** A start that occurs in a list occurs in the organised list. */
  lemma OrganiseKeepsStart(d: seq<Scene>, id: string) returns (k: int)
    requires id in StartIds(d)
    ensures 0 <= k < |Organise(d)| && Organise(d)[k].start.id == id
  {
    var m :| 0 <= m < |d| && StartIds(d)[m] == id;
    k := OrganiseLosesNoScene(d, m);
    assert Organise(d)[k].start.id == Unnumbered(Organise(d)[k]).start.id;
  }

  /** Every scene in the channel's list is, up to its number, the first scene of the traces with
      that start: later reports of the same start are dropped, not merged. */
  lemma ChannelScenesFirstWins(ch: ChannelFile, finder: SceneFinder)
    requires ChannelScenes(ch, finder).Success?
    ensures var r, all := ChannelScenes(ch, finder).value, ChannelTraces(ch, finder);
            forall k :: 0 <= k < |r| ==>
              exists i :: 0 <= i < |all| && Unnumbered(all[i]) == Unnumbered(r[k]) && IsFirstStart(all, i)
  {
    var all := ChannelTraces(ch, finder);
    var d := Dedup(all);
    var r := Organise(d);
    DedupKeepsFirsts(all);
    forall k | 0 <= k < |r| ensures exists i :: 0 <= i < |all| && Unnumbered(all[i]) == Unnumbered(r[k]) && IsFirstStart(all, i) {
      var m := OrganiseKeepsScene(d, k);
      var i :| 0 <= i < |all| && all[i] == d[m] && IsFirstStart(all, i);
    }
  }

  // ---------------------------------------------------------------------------------------------
  // Category and backup roll-ups

  function Flatten(lists: seq<seq<Scene>>): (r: seq<Scene>)
    ensures |r| == TotalLength(lists)
  {
    if lists == [] then [] else Flatten(lists[..|lists| - 1]) + lists[|lists| - 1]
  }

  function TotalLength(lists: seq<seq<Scene>>): (r: nat) {
    if lists == [] then 0 else TotalLength(lists[..|lists| - 1]) + |lists[|lists| - 1]|
  }

  /** The result lists of the channel files among `files`, in order; the first failing channel
      aborts the category. */
  function ChannelLists(files: seq<(string, ChannelFile)>, finder: SceneFinder): (r: Result<seq<seq<Scene>>, Error>) {
    if files == [] then Success([])
    else
      match ChannelLists(files[..|files| - 1], finder)
      case Failure(e) => Failure(e)
      case Success(lists) =>
        var (name, ch) := files[|files| - 1];
        if !IsChannelFileName(name) then Success(lists)
        else
          match ChannelScenes(ch, finder)
          case Failure(e) => Failure(e)
          case Success(scenes) => Success(lists + [scenes])
  }

  /** `find_scenes_in_category`: concatenate, sort, renumber. */
  function CategoryScenes(files: seq<(string, ChannelFile)>, finder: SceneFinder): (r: Result<seq<Scene>, Error>) {
    match ChannelLists(files, finder)
    case Failure(e) => Failure(e)
    case Success(lists) => Success(Organise(Flatten(lists)))
  }

  /** The roll-up of any number of scene lists holds as many scenes as the lists together, the
      same scenes (up to their numbers), sorted by start timestamp and numbered 1..n. */
  lemma RollUpSpec(lists: seq<seq<Scene>>)
    ensures |Organise(Flatten(lists))| == TotalLength(lists)
    ensures SortedBy(Organise(Flatten(lists)), SceneKey)
    ensures forall i :: 0 <= i < |Organise(Flatten(lists))| ==> Organise(Flatten(lists))[i].sceneId == i + 1
    ensures multiset(MapSeq(Unnumbered, Organise(Flatten(lists)))) == multiset(MapSeq(Unnumbered, Flatten(lists)))
  {
    OrganiseSpec(Flatten(lists));
  }

  /** `find_scenes_in_category(folder)` over the files the folder walk yields, as (name, content)
      pairs; the channel files among them are processed in order. */
  method FindScenesInCategory(files: seq<(string, ChannelFile)>, finder: SceneFinder)
    returns (r: Result<seq<Scene>, Error>)
    ensures r == CategoryScenes(files, finder)
  {
    var allScenes: seq<Scene> := [];
    ghost var lists: seq<seq<Scene>> := [];
    var i := 0;
    while i < |files|
      invariant 0 <= i <= |files|
      invariant ChannelLists(files[..i], finder) == Success(lists)
      invariant allScenes == Flatten(lists)
    {
      assert files[..i + 1][..i] == files[..i];
      var (name, ch) := files[i];
      if IsChannelFileName(name) {
        var scenes, _ := FindAllScenesInChannel(ch, finder);
        if scenes.Failure? {
          FailedChannelAborts(files, finder, i + 1);
          return Failure(scenes.error);
        }
        allScenes := allScenes + scenes.value;
        assert (lists + [scenes.value])[..|lists|] == lists;
        lists := lists + [scenes.value];
      }
      i := i + 1;
    }
    assert files[..i] == files;
    allScenes := SortAndRenumber(allScenes);
    r := Success(allScenes);
  }

  lemma {:induction false} FailedChannelAborts(files: seq<(string, ChannelFile)>, finder: SceneFinder, n: nat)
    requires 0 < n <= |files| && ChannelLists(files[..n], finder).Failure?
    ensures ChannelLists(files, finder) == ChannelLists(files[..n], finder)
    decreases |files| - n
  {
    if n < |files| {
      assert files[..n + 1][..n] == files[..n];
      FailedChannelAborts(files, finder, n + 1);
    } else {
      assert files[..n] == files;
    }
  }

  /** The scene lists of the categories, in order; the first failing category aborts. */
  function CategoryLists(folders: seq<seq<(string, ChannelFile)>>, finder: SceneFinder): (r: Result<seq<seq<Scene>>, Error>) {
    if folders == [] then Success([])
    else
      match CategoryLists(folders[..|folders| - 1], finder)
      case Failure(e) => Failure(e)
      case Success(lists) =>
        match CategoryScenes(folders[|folders| - 1], finder)
        case Failure(e) => Failure(e)
        case Success(scenes) => Success(lists + [scenes])
  }

  /** `find_all_scenes()` over the category folders: concatenate, sort, renumber. */
  method FindAllScenes(folders: seq<seq<(string, ChannelFile)>>, finder: SceneFinder)
    returns (r: Result<seq<Scene>, Error>)
    ensures CategoryLists(folders, finder).Failure? ==> r == Failure(CategoryLists(folders, finder).error)
    ensures CategoryLists(folders, finder).Success? ==> r == Success(Organise(Flatten(CategoryLists(folders, finder).value)))
  {
    var fullScenes: seq<Scene> := [];
    ghost var lists: seq<seq<Scene>> := [];
    var i := 0;
    while i < |folders|
      invariant 0 <= i <= |folders|
      invariant CategoryLists(folders[..i], finder) == Success(lists)
      invariant fullScenes == Flatten(lists)
    {
      assert folders[..i + 1][..i] == folders[..i];
      var scenes := FindScenesInCategory(folders[i], finder);
      if scenes.Failure? {
        FailedCategoryAborts(folders, finder, i + 1);
        return Failure(scenes.error);
      }
      fullScenes := fullScenes + scenes.value;
      assert (lists + [scenes.value])[..|lists|] == lists;
      lists := lists + [scenes.value];
      i := i + 1;
    }
    assert folders[..i] == folders;
    fullScenes := SortAndRenumber(fullScenes);
    r := Success(fullScenes);
  }

  lemma {:induction false} FailedCategoryAborts(folders: seq<seq<(string, ChannelFile)>>, finder: SceneFinder, n: nat)
    requires 0 < n <= |folders| && CategoryLists(folders[..n], finder).Failure?
    ensures CategoryLists(folders, finder) == CategoryLists(folders[..n], finder)
    decreases |folders| - n
  {
    if n < |folders| {
      assert folders[..n + 1][..n] == folders[..n];
      FailedCategoryAborts(folders, finder, n + 1);
    } else {
      assert folders[..n] == folders;
    }
  }
}
