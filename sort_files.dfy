/** Re-numbering the exported channel files (`sort_exported_files`).

    The exporter names each channel file `N# name.json`, N being the channel's position in the
    whole server. The analysis reads those numbers back, category folder by category folder,
    ranks them 1..n within the category and writes the ranks into the channel list; the clean-up
    strips every `N# ` prefix; the renaming gives each channel file the prefix `rank# ` and each
    thread file `rank-threadPosition# `. Folder listings are parameters; renaming a file is
    replacing its name in the listing. */
module SortFiles {
  import opened Wrappers
  import opened Strings
  import opened Sorting
  import opened Messages
  import opened Exceptions
  import opened ChannelList

  // ---------------------------------------------------------------------------------------------
  // super_normalize

  /** The characters `[a-zA-Z0-9-]` that the normalisation keeps. */
  predicate Kept(c: char) {
    ('a' <= c <= 'z') || ('A' <= c <= 'Z') || IsDigit(c) || c == '-'
  }

  /** What a normalised name is made of: lower-case letters, digits and `-`. */
  predicate IsNormal(c: char) {
    ('a' <= c <= 'z') || IsDigit(c) || c == '-'
  }

  /** `str.lower()` on the kept characters. */
  function Lower(c: char): (r: char)
    requires Kept(c)
    ensures IsNormal(r)
    ensures 'A' <= c <= 'Z' ==> r as int == c as int + 32
    ensures !('A' <= c <= 'Z') ==> r == c
  {
    if 'A' <= c <= 'Z' then (c as int + 32) as char else c
  }

  /** `super_normalize(text)`: drop every character outside `[a-zA-Z0-9-]`, then lower-case. */
  function Normalize(text: string): (r: string)
    ensures |r| <= |text|
    ensures forall i :: 0 <= i < |r| ==> IsNormal(r[i])
  {
    if text == [] then []
    else (if Kept(text[0]) then [Lower(text[0])] else []) + Normalize(text[1..])
  }

  /** Normalising works character by character, so it distributes over concatenation. */
  lemma {:induction false} NormalizeAppend(a: string, b: string)
    ensures Normalize(a + b) == Normalize(a) + Normalize(b)
  {
    if a != [] {
      assert (a + b)[1..] == a[1..] + b;
      NormalizeAppend(a[1..], b);
    } else {
      assert a + b == b;
    }
  }

  /** A character outside `[a-zA-Z0-9-]` makes no difference to the normalised name. */
  lemma NormalizeDrops(a: string, c: char, b: string)
    requires !Kept(c)
    ensures Normalize(a + [c] + b) == Normalize(a + b)
  {
    NormalizeAppend(a + [c], b);
    NormalizeAppend(a, [c]);
    NormalizeAppend(a, b);
  }

  /** An already normalised name is its own normal form. */
  lemma {:induction false} NormalizeNormal(s: string)
    requires forall i :: 0 <= i < |s| ==> IsNormal(s[i])
    ensures Normalize(s) == s
  {
    if s != [] {
      NormalizeNormal(s[1..]);
    }
  }

  /** Normalising twice is normalising once. */
  lemma NormalizeIdempotent(text: string)
    ensures Normalize(Normalize(text)) == Normalize(text)
  {
    NormalizeNormal(Normalize(text));
  }

  // ---------------------------------------------------------------------------------------------
  // find_channel_file

  /** `os.path.splitext(f)[0]` for a name ending in `.json`: the name without its extension, except
      that a name whose part before the last dot is only dots has no extension. */
  function JsonStem(f: string): (r: string)
    requires EndsWith(f, ".json")
    ensures r == f || r + ".json" == f
    ensures (forall i :: 0 <= i < |f| - 5 ==> f[i] == '.') ==> r == f
    ensures !(forall i :: 0 <= i < |f| - 5 ==> f[i] == '.') ==> r + ".json" == f
  {
    var base := f[..|f| - 5];
    assert base + ".json" == f;
    if forall i :: 0 <= i < |base| ==> base[i] == '.' then f else base
  }

  /** `filename` is a channel file whose stem normalises to `target` (already normalised). */
  predicate FileMatches(filename: string, target: string) {
    IsChannelFileName(filename) && Normalize(JsonStem(filename)) == target
  }

  /** The index of the first file of the listing that matches. */
  function FirstMatch(files: seq<string>, target: string): (r: Option<nat>)
    ensures r.Some? ==> r.value < |files| && FileMatches(files[r.value], target)
    ensures r.Some? ==> forall j :: 0 <= j < r.value ==> !FileMatches(files[j], target)
    ensures r.None? ==> forall j :: 0 <= j < |files| ==> !FileMatches(files[j], target)
  {
    if files == [] then None
    else if FileMatches(files[0], target) then Some(0)
    else match FirstMatch(files[1..], target)
      case None => None
      case Some(i) => Some(i + 1)
  }

  /** `find_channel_file`: the first channel file of the folder whose stem normalises like the
      target name, or None. */
  method FindChannelFile(files: seq<string>, targetName: string) returns (r: Option<string>)
    ensures r == (match FirstMatch(files, Normalize(targetName))
                  case None => None
                  case Some(i) => Some(files[i]))
  {
    var target := Normalize(targetName);
    for i := 0 to |files|
      invariant forall j :: 0 <= j < i ==> !FileMatches(files[j], target)
    {
      if IsChannelFileName(files[i]) {
        var stem := JsonStem(files[i]);
        if Normalize(stem) == target {
          FirstMatchAt(files, target, i);
          return Some(files[i]);
        }
      }
    }
    FirstMatchNone(files, target);
    return None;
  }

  /** The first matching index is the one with no match before it. */
  lemma FirstMatchAt(files: seq<string>, target: string, i: nat)
    requires i < |files| && FileMatches(files[i], target)
    requires forall j :: 0 <= j < i ==> !FileMatches(files[j], target)
    ensures FirstMatch(files, target) == Some(i)
  {
  }

  lemma FirstMatchNone(files: seq<string>, target: string)
    requires forall j :: 0 <= j < |files| ==> !FileMatches(files[j], target)
    ensures FirstMatch(files, target).None?
  {
  }

  // ---------------------------------------------------------------------------------------------
  // File-name formats

  const NumberSep := "# "

  /** `f"{pos}# {original}"`, the new name of a channel file. */
  function ChannelFileName(pos: int, original: string): (r: string) {
    IntToString(pos) + NumberSep + original
  }

  /** `f"{pos}-{threadPos}# {original}"`, the new name of a thread file. */
  function ThreadFileName(pos: int, threadPos: int, original: string): (r: string) {
    IntToString(pos) + "-" + IntToString(threadPos) + NumberSep + original
  }

  /** `filename.split("# ")[1]`: the name without its number; None where the source raises
      IndexError (no `# ` in the name). */
  function StripNumber(filename: string): (r: Option<string>) {
    var parts := Split(filename, NumberSep);
    if |parts| < 2 then None else Some(parts[1])
  }

  /** `channel_position, channel_name = file.split("# ")` followed by `int(channel_position)` and
      the normalised stem `super_normalize(channel_name.split(".js")[0])`: the global position
      and the key of a channel file; ValueError unless the name has exactly one `# ` and starts
      with an integer. */
  function ReadFileName(filename: string): (r: Result<(int, string), Error>) {
    var parts := Split(filename, NumberSep);
    if |parts| != 2 then Failure(ValueError)
    else match ParseInt(parts[0])
      case None => Failure(ValueError)
      case Some(n) => Success((n, Normalize(Split(parts[1], ".js")[0])))
  }

  /** Stripping needs the separator: it fails exactly on the names without `# `. */
  lemma StripNumberFails(filename: string)
    ensures StripNumber(filename).None? <==> !Contains(filename, NumberSep)
  {
    match FindFrom(filename, NumberSep, 0)
    case None =>
      assert Split(filename, NumberSep) == [filename];
    case Some(i) =>
      assert OccursAt(filename, NumberSep, i);
  }

  /** A channel file name without `# ` cannot be read: the analysis fails with ValueError, as the
      module documentation warns it will for files not in the exporter's format. */
  lemma ReadFileNameNeedsSeparator(filename: string)
    requires !Contains(filename, NumberSep)
    ensures ReadFileName(filename) == Failure(ValueError)
  {
    StripNumberFails(filename);
  }

  lemma NoHashInNumber(i: int)
    ensures '#' !in IntToString(i)
  {
    var s := IntToString(i);
    if i < 0 {
      assert s[1..] == NatToString(-i);
      forall k | 0 <= k < |s| ensures s[k] != '#' {
        if k > 0 {
          assert s[k] == NatToString(-i)[k - 1];
        }
      }
    }
  }

  /** Stripping the number of a renamed channel or thread file gives back the name it had, when
      that name has no `# ` of its own: renaming and cleaning up are inverse. */
  lemma StripNumberOfNewNames(pos: int, threadPos: int, original: string)
    requires !Contains(original, NumberSep)
    ensures StripNumber(ChannelFileName(pos, original)) == Some(original)
    ensures StripNumber(ThreadFileName(pos, threadPos, original)) == Some(original)
  {
    NoHashInNumber(pos);
    NoHashInNumber(threadPos);
    SplitAfterPrefix(IntToString(pos), NumberSep, original);
    SplitWithout(original, NumberSep);
    var prefix := IntToString(pos) + "-" + IntToString(threadPos);
    assert '#' !in prefix;
    SplitAfterPrefix(prefix, NumberSep, original);
  }

  /** A channel file renamed `pos# stem.json` is read back as position `pos` under the key
      `super_normalize(stem)` — the key the channel list looks channels up by. */
  lemma ReadChannelFileName(pos: int, stem: string)
    requires !Contains(stem + ".json", NumberSep) && !Contains(stem, ".js")
    ensures ReadFileName(ChannelFileName(pos, stem + ".json")) == Success((pos, Normalize(stem)))
  {
    var original := stem + ".json";
    NoHashInNumber(pos);
    SplitAfterPrefix(IntToString(pos), NumberSep, original);
    SplitWithout(original, NumberSep);
    ParseIntOfIntToString(pos);
    assert original == stem + ".js" + "on";
    SplitFirstPiece(stem, ".js", "on");
  }

  /** The first piece of `p + sep + q` is `p` when `p` holds no `sep` and no occurrence can
      straddle the end of `p` (the separator's first character does not recur in it). */
  lemma SplitFirstPiece(p: string, sep: string, q: string)
    requires |sep| > 0 && !Contains(p, sep) && sep[0] !in sep[1..]
    ensures Split(p + sep + q, sep)[0] == p
  {
    var s := p + sep + q;
    assert OccursAt(s, sep, |p|) by { assert s[|p|..|p| + |sep|] == sep; }
    forall j | 0 <= j < |p| ensures !OccursAt(s, sep, j) {
      if j + |sep| <= |p| {
        assert s[j..j + |sep|] == p[j..j + |sep|];
        assert !OccursAt(p, sep, j);
      } else if j + |sep| <= |s| {
        var d := |p| - j;
        assert s[|p|] == sep[0];
        assert sep[d] == sep[1..][d - 1];
        assert s[j..j + |sep|][d] == s[|p|];
      }
    }
    match FindFrom(s, sep, 0)
    case Some(i) =>
      assert s[..i] == p;
  }

  // ---------------------------------------------------------------------------------------------
  // get_number_from_files: the file dictionary

  /** A Python dict from normalised channel names to positions, as its items in insertion order. */
  type FileDict = seq<(string, int)>

  predicate DistinctKeys(d: FileDict) {
    forall i, j :: 0 <= i < j < |d| ==> d[i].0 != d[j].0
  }

  /** Where key `k` sits in the dict. */
  function KeyIndex(d: FileDict, k: string): (r: Option<nat>)
    ensures r.Some? ==> r.value < |d| && d[r.value].0 == k
    ensures r.None? ==> forall i :: 0 <= i < |d| ==> d[i].0 != k
  {
    if d == [] then None
    else if d[0].0 == k then Some(0)
    else match KeyIndex(d[1..], k)
      case None => None
      case Some(i) => Some(i + 1)
  }

  /** `d[k]`, None where Python raises KeyError. */
  function Lookup(d: FileDict, k: string): (r: Option<int>) {
    match KeyIndex(d, k)
    case None => None
    case Some(i) => Some(d[i].1)
  }

  /** `d[k] = v`: a key already present keeps its place, a new key goes last. */
  function DictSet(d: FileDict, k: string, v: int): (r: FileDict) {
    match KeyIndex(d, k)
    case None => d + [(k, v)]
    case Some(i) => d[i := (k, v)]
  }

  /** In a dict with distinct keys, looking up the key of an item gives that item's value. */
  lemma LookupAt(d: FileDict, m: int)
    requires DistinctKeys(d) && 0 <= m < |d|
    ensures KeyIndex(d, d[m].0) == Some(m)
    ensures Lookup(d, d[m].0) == Some(d[m].1)
  {
  }

  /** Assignment keeps the keys distinct, makes `d[k]` equal `v` and leaves every other key's
      value as it was. */
  lemma DictSetSpec(d: FileDict, k: string, v: int, k': string)
    requires DistinctKeys(d)
    ensures DistinctKeys(DictSet(d, k, v))
    ensures Lookup(DictSet(d, k, v), k) == Some(v)
    ensures k' != k ==> Lookup(DictSet(d, k, v), k') == Lookup(d, k')
  {
    var r := DictSet(d, k, v);
    match KeyIndex(d, k)
    case None =>
      LookupAt(r, |d|);
      if k' != k {
        match KeyIndex(d, k')
        case None =>
        case Some(m) => LookupAt(d, m); LookupAt(r, m);
      }
    case Some(i) =>
      LookupAt(r, i);
      if k' != k {
        match KeyIndex(d, k')
        case None =>
        case Some(m) => LookupAt(d, m); LookupAt(r, m);
      }
  }

  /** The files `get_number_from_files` reads: every file of the category folder except the
      scene lists. */
  predicate IsPositionedFile(filename: string) {
    !EndsWith(filename, "scenes.json")
  }

  /** `file_dict` after the loop over the folder's files: each file's key set to its position;
      the first unreadable file name stops the analysis with ValueError. */
  function FileDictOf(files: seq<string>): (r: Result<FileDict, Error>) {
    if files == [] then Success([])
    else
      var last := files[|files| - 1];
      match FileDictOf(files[..|files| - 1])
      case Failure(e) => Failure(e)
      case Success(d) =>
        if !IsPositionedFile(last) then Success(d)
        else match ReadFileName(last)
          case Failure(e) => Failure(e)
          case Success((n, key)) => Success(DictSet(d, key, n))
  }

  /** The reference reading of the folder: the position of the LAST file whose key is `key`. */
  function LastPosition(files: seq<string>, key: string): (r: Option<int>) {
    if files == [] then None
    else
      var last := files[|files| - 1];
      if IsPositionedFile(last) && ReadFileName(last).Success? && ReadFileName(last).value.1 == key
      then Some(ReadFileName(last).value.0)
      else LastPosition(files[..|files| - 1], key)
  }

  /** The loop that builds `file_dict`. */
  method BuildFileDict(files: seq<string>) returns (r: Result<FileDict, Error>)
    ensures r == FileDictOf(files)
  {
    var d: FileDict := [];
    for i := 0 to |files|
      invariant FileDictOf(files[..i]) == Success(d)
    {
      assert files[..i + 1][..i] == files[..i];
      if IsPositionedFile(files[i]) {
        var read := ReadFileName(files[i]);
        if read.Failure? {
          FileDictFailurePoisons(files[..i + 1], files[i + 1..]);
          assert files[..i + 1] + files[i + 1..] == files;
          return Failure(read.error);
        }
        var (n, key) := read.value;
        d := DictSet(d, key, n);
      }
    }
    assert files[..|files|] == files;
    return Success(d);
  }

  /** Once a file name is unreadable, the analysis of the folder fails with that error,
      whatever follows. */
  lemma {:induction false} FileDictFailurePoisons(files: seq<string>, rest: seq<string>)
    requires FileDictOf(files).Failure?
    ensures FileDictOf(files + rest) == FileDictOf(files)
    decreases |rest|
  {
    if rest == [] {
      assert files + rest == files;
    } else {
      var init := rest[..|rest| - 1];
      FileDictFailurePoisons(files, init);
      assert (files + rest)[..|files + rest| - 1] == files + init;
    }
  }

  /** The dict has one entry per key, and each key's value is the position of the last file
      with that key: a later file with the same normalised name overwrites an earlier one. */
  lemma {:induction false} FileDictLastWins(files: seq<string>, key: string)
    requires FileDictOf(files).Success?
    ensures DistinctKeys(FileDictOf(files).value)
    ensures Lookup(FileDictOf(files).value, key) == LastPosition(files, key)
  {
    if files != [] {
      var init := files[..|files| - 1];
      var last := files[|files| - 1];
      FileDictLastWins(init, key);
      var d := FileDictOf(init).value;
      if IsPositionedFile(last) {
        var (n, k) := ReadFileName(last).value;
        DictSetSpec(d, k, n, key);
      }
    }
  }

  // ---------------------------------------------------------------------------------------------
  // get_number_from_files: ranking

  /** The sort key of `sorted(file_dict.items(), key=lambda item: item[1])`. */
  function ByValue(e: (string, int)): (r: (int, int)) {
    (e.1, 0)
  }

  /** `sorted_dict` after the renumbering: the items sorted by global position (stably), each
      value replaced by its rank 1, 2, … */
  function Ranked(d: FileDict): (r: FileDict)
    ensures |r| == |d|
  {
    var s := SortBy(d, ByValue);
    seq(|s|, i requires 0 <= i < |s| => (s[i].0, i + 1))
  }

  /** The renumbering loop over the sorted items. */
  method Rerank(d: FileDict) returns (ranked: FileDict)
    ensures ranked == Ranked(d)
  {
    var sorted := SortBy(d, ByValue);
    ranked := sorted;
    for i := 0 to |sorted|
      invariant |ranked| == |sorted|
      invariant forall k :: 0 <= k < i ==> ranked[k] == (sorted[k].0, k + 1)
      invariant forall k :: i <= k < |sorted| ==> ranked[k] == sorted[k]
    {
      ranked := ranked[i := (ranked[i].0, i + 1)];
    }
  }

  /** Ranking keeps the keys (each once) and numbers them 1..n in the order of their global
      positions: a key with a lower global position gets a lower rank, and keys listed in rank
      order have non-decreasing global positions. */
  lemma RankedSpec(d: FileDict)
    requires DistinctKeys(d)
    ensures DistinctKeys(Ranked(d))
    ensures forall i :: 0 <= i < |d| ==> Ranked(d)[i].1 == i + 1
    ensures forall i :: 0 <= i < |d| ==> Lookup(d, Ranked(d)[i].0).Some?
    ensures forall i, j :: 0 <= i < j < |d| ==>
              Lookup(d, Ranked(d)[i].0).value <= Lookup(d, Ranked(d)[j].0).value
  {
    var s := SortBy(d, ByValue);
    var r := Ranked(d);
    SortBySorted(d, ByValue);
    var key := (e: (string, int)) => e.0;
    assert forall i, j :: 0 <= i < j < |d| ==> key(d[i]) != key(d[j]);
    PermutationKeepsDistinctBy(s, d, key);
    forall i | 0 <= i < |d| ensures Lookup(d, r[i].0) == Some(s[i].1) {
      var m := PermutationMember(s, d, i);
      LookupAt(d, m);
    }
  }

  /** Every key of the dict gets a rank between 1 and the number of keys, and of two keys the
      one with the lower global position gets the lower rank. */
  lemma RankOrder(d: FileDict, a: string, b: string)
    requires DistinctKeys(d) && Lookup(d, a).Some? && Lookup(d, b).Some?
    ensures Lookup(Ranked(d), a).Some? && 1 <= Lookup(Ranked(d), a).value <= |d|
    ensures Lookup(Ranked(d), b).Some?
    ensures Lookup(d, a).value < Lookup(d, b).value ==> Lookup(Ranked(d), a).value < Lookup(Ranked(d), b).value
  {
    RankedSpec(d);
    var r := Ranked(d);
    var s := SortBy(d, ByValue);
    var ia := RankedIndexOf(d, a);
    var ib := RankedIndexOf(d, b);
    LookupAt(r, ia);
    LookupAt(r, ib);
  }

  /** The place of a key of the dict among the ranked items. */
  lemma RankedIndexOf(d: FileDict, k: string) returns (i: int)
    requires DistinctKeys(d) && Lookup(d, k).Some?
    ensures 0 <= i < |d| && Ranked(d)[i].0 == k
  {
    var s := SortBy(d, ByValue);
    var m := KeyIndex(d, k).value;
    var j := PermutationMember(d, s, m);
    i := j;
  }

  // ---------------------------------------------------------------------------------------------
  // get_number_from_files: repositioning a category

  /** The sort key of the channels, `x["position"]`. */
  function ByChannelPosition(c: ChannelRef): (r: (int, int)) {
    (c.position, 0)
  }

  /** The sort key of the threads, `(x["position"], x["threadPosition"])`. */
  function ByThreadPosition(t: ThreadRef): (r: (int, int)) {
    (t.position, t.threadPosition)
  }

  /** `sorted_dict[k]` where the key is known to be there (0 otherwise, never used). */
  function RankOf(ranks: FileDict, k: string): (r: int) {
    match Lookup(ranks, k)
    case None => 0
    case Some(v) => v
  }

  /** Every channel (or thread) of the list is found in `sorted_dict` under its normalised
      channel name; the source raises KeyError otherwise. */
  predicate ChannelsRanked(ranks: FileDict, chs: seq<ChannelRef>) {
    forall j :: 0 <= j < |chs| ==> Lookup(ranks, Normalize(chs[j].channel)).Some?
  }

  predicate ThreadsRanked(ranks: FileDict, ths: seq<ThreadRef>) {
    forall j :: 0 <= j < |ths| ==> Lookup(ranks, Normalize(ths[j].channel)).Some?
  }

  /** A channel moved to its rank. */
  function RankChannel(ranks: FileDict, c: ChannelRef): (r: ChannelRef) {
    c.(position := RankOf(ranks, Normalize(c.channel)))
  }

  /** A thread moved to the rank of its parent channel. */
  function RankThread(ranks: FileDict, t: ThreadRef): (r: ThreadRef) {
    t.(position := RankOf(ranks, Normalize(t.channel)))
  }

  /** The category after its channels and threads took their ranks and were sorted; KeyError for
      a channel or thread whose channel has no file. */
  function Repositioned(cat: Category, ranks: FileDict): (r: Result<Category, Error>) {
    if !ChannelsRanked(ranks, cat.channels) || !ThreadsRanked(ranks, cat.threads) then Failure(KeyError)
    else
      Success(cat.(channels := SortBy(MapSeq(c => RankChannel(ranks, c), cat.channels), ByChannelPosition),
                   threads := SortBy(MapSeq(t => RankThread(ranks, t), cat.threads), ByThreadPosition)))
  }

  /** One category of `get_number_from_files`, given the names of the files in its folder. */
  function CategoryOrder(cat: Category, files: seq<string>): (r: Result<Category, Error>) {
    match FileDictOf(files)
    case Failure(e) => Failure(e)
    case Success(d) => Repositioned(cat, Ranked(d))
  }

  /** The loop that writes the ranks into the channels. */
  method RankChannels(ranks: FileDict, chs: seq<ChannelRef>) returns (r: Option<seq<ChannelRef>>)
    ensures r.Some? <==> ChannelsRanked(ranks, chs)
    ensures r.Some? ==> r.value == MapSeq(c => RankChannel(ranks, c), chs)
  {
    var out := chs;
    for i := 0 to |chs|
      invariant |out| == |chs|
      invariant forall k :: 0 <= k < i ==> Lookup(ranks, Normalize(chs[k].channel)).Some?
      invariant forall k :: 0 <= k < i ==> out[k] == RankChannel(ranks, chs[k])
      invariant forall k :: i <= k < |chs| ==> out[k] == chs[k]
    {
      var position := Lookup(ranks, Normalize(out[i].channel));
      if position.None? {
        return None;
      }
      out := out[i := out[i].(position := position.value)];
    }
    return Some(out);
  }

  /** The loop that writes the ranks of their parent channels into the threads. */
  method RankThreads(ranks: FileDict, ths: seq<ThreadRef>) returns (r: Option<seq<ThreadRef>>)
    ensures r.Some? <==> ThreadsRanked(ranks, ths)
    ensures r.Some? ==> r.value == MapSeq(t => RankThread(ranks, t), ths)
  {
    var out := ths;
    for i := 0 to |ths|
      invariant |out| == |ths|
      invariant forall k :: 0 <= k < i ==> Lookup(ranks, Normalize(ths[k].channel)).Some?
      invariant forall k :: 0 <= k < i ==> out[k] == RankThread(ranks, ths[k])
      invariant forall k :: i <= k < |ths| ==> out[k] == ths[k]
    {
      var position := Lookup(ranks, Normalize(out[i].channel));
      if position.None? {
        return None;
      }
      out := out[i := out[i].(position := position.value)];
    }
    return Some(out);
  }

  /** `get_number_from_files` for one category. */
  method OrderCategory(cat: Category, files: seq<string>) returns (r: Result<Category, Error>)
    ensures r == CategoryOrder(cat, files)
  {
    var fileDict := BuildFileDict(files);
    if fileDict.Failure? {
      return Failure(fileDict.error);
    }
    var ranks := Rerank(fileDict.value);
    var chs := RankChannels(ranks, cat.channels);
    if chs.None? {
      return Failure(KeyError);
    }
    var ths := RankThreads(ranks, cat.threads);
    if ths.None? {
      return Failure(KeyError);
    }
    return Success(cat.(channels := SortBy(chs.value, ByChannelPosition),
                        threads := SortBy(ths.value, ByThreadPosition)));
  }

  /** After the analysis of a category, its channels are those it had, each at the rank of its
      file, sorted by rank with channels of equal rank in their old order; its threads are those it
      had, each at the rank of its parent channel's file, sorted by rank and then thread position;
      nothing else of the category changes. */
  lemma CategoryOrderSpec(cat: Category, files: seq<string>)
    requires CategoryOrder(cat, files).Success?
    ensures var r := CategoryOrder(cat, files).value;
            && var ranks := Ranked(FileDictOf(files).value);
            && SortedBy(r.channels, ByChannelPosition)
            && multiset(r.channels) == multiset(MapSeq(c => RankChannel(ranks, c), cat.channels))
            && (forall k :: 0 <= k < |r.channels| ==>
                  Lookup(ranks, Normalize(r.channels[k].channel)) == Some(r.channels[k].position))
            && SortedBy(r.threads, ByThreadPosition)
            && multiset(r.threads) == multiset(MapSeq(t => RankThread(ranks, t), cat.threads))
            && (forall k :: 0 <= k < |r.threads| ==>
                  Lookup(ranks, Normalize(r.threads[k].channel)) == Some(r.threads[k].position))
            && r.(channels := cat.channels, threads := cat.threads) == cat
  {
    CategoryOrderChannels(cat, files);
    CategoryOrderThreads(cat, files);
  }

  lemma CategoryOrderChannels(cat: Category, files: seq<string>)
    requires CategoryOrder(cat, files).Success?
    ensures var r := CategoryOrder(cat, files).value;
            && var ranks := Ranked(FileDictOf(files).value);
            && SortedBy(r.channels, ByChannelPosition)
            && multiset(r.channels) == multiset(MapSeq(c => RankChannel(ranks, c), cat.channels))
            && (forall k :: 0 <= k < |r.channels| ==>
                  Lookup(ranks, Normalize(r.channels[k].channel)) == Some(r.channels[k].position))
  {
    var ranks := Ranked(FileDictOf(files).value);
    var r := CategoryOrder(cat, files).value;
    var chs := MapSeq(c => RankChannel(ranks, c), cat.channels);
    assert r.channels == SortBy(chs, ByChannelPosition);
    SortBySorted(chs, ByChannelPosition);
    forall k | 0 <= k < |r.channels|
      ensures Lookup(ranks, Normalize(r.channels[k].channel)) == Some(r.channels[k].position)
    {
      var m := PermutationMember(r.channels, chs, k);
      assert Lookup(ranks, Normalize(cat.channels[m].channel)).Some?;
    }
  }

  lemma CategoryOrderThreads(cat: Category, files: seq<string>)
    requires CategoryOrder(cat, files).Success?
    ensures var r := CategoryOrder(cat, files).value;
            && var ranks := Ranked(FileDictOf(files).value);
            && SortedBy(r.threads, ByThreadPosition)
            && multiset(r.threads) == multiset(MapSeq(t => RankThread(ranks, t), cat.threads))
            && (forall k :: 0 <= k < |r.threads| ==>
                  Lookup(ranks, Normalize(r.threads[k].channel)) == Some(r.threads[k].position))
  {
    var ranks := Ranked(FileDictOf(files).value);
    var r := CategoryOrder(cat, files).value;
    var ths := MapSeq(t => RankThread(ranks, t), cat.threads);
    assert r.threads == SortBy(ths, ByThreadPosition);
    SortBySorted(ths, ByThreadPosition);
    forall k | 0 <= k < |r.threads|
      ensures Lookup(ranks, Normalize(r.threads[k].channel)) == Some(r.threads[k].position)
    {
      var m := PermutationMember(r.threads, ths, k);
      assert Lookup(ranks, Normalize(cat.threads[m].channel)).Some?;
    }
  }

  /** The sort of the channels is stable: channels given the same rank keep their order. */
  lemma CategoryOrderStable(cat: Category, files: seq<string>, k: (int, int))
    requires CategoryOrder(cat, files).Success?
    ensures var ranks := Ranked(FileDictOf(files).value);
            && WithKey(CategoryOrder(cat, files).value.channels, ByChannelPosition, k)
               == WithKey(MapSeq(c => RankChannel(ranks, c), cat.channels), ByChannelPosition, k)
            && WithKey(CategoryOrder(cat, files).value.threads, ByThreadPosition, k)
               == WithKey(MapSeq(t => RankThread(ranks, t), cat.threads), ByThreadPosition, k)
  {
    var ranks := Ranked(FileDictOf(files).value);
    SortByStable(MapSeq(c => RankChannel(ranks, c), cat.channels), ByChannelPosition, k);
    SortByStable(MapSeq(t => RankThread(ranks, t), cat.threads), ByThreadPosition, k);
  }

  /** A channel without a file of its name in the category folder stops the analysis with
      KeyError. */
  lemma MissingChannelFileFails(cat: Category, files: seq<string>, j: int)
    requires FileDictOf(files).Success? && 0 <= j < |cat.channels|
    requires LastPosition(files, Normalize(cat.channels[j].channel)).None?
    ensures CategoryOrder(cat, files) == Failure(KeyError)
  {
    var d := FileDictOf(files).value;
    var key := Normalize(cat.channels[j].channel);
    FileDictLastWins(files, key);
    RankedKeysFromDict(d, key);
  }

  /** A key is ranked only if it is in the dict. */
  lemma RankedKeysFromDict(d: FileDict, key: string)
    requires DistinctKeys(d)
    ensures Lookup(Ranked(d), key).Some? ==> Lookup(d, key).Some?
  {
    RankedSpec(d);
  }

  // ---------------------------------------------------------------------------------------------
  // get_number_from_files: all categories

  /** `category["category"].replace(":", "_")`. */
  function ReplaceColons(name: string): (r: string)
    ensures |r| == |name| && ':' !in r
    ensures forall i :: 0 <= i < |name| ==> r[i] == (if name[i] == ':' then '_' else name[i])
  {
    seq(|name|, i requires 0 <= i < |name| => if name[i] == ':' then '_' else name[i])
  }

  /** `f"{category['position']}# {folder_name}"`, the folder of a category. */
  function CategoryFolder(cat: Category): (r: string) {
    IntToString(cat.position) + NumberSep + ReplaceColons(cat.category)
  }

  /** The names of the files in each folder, by folder name. */
  type Listing = string -> seq<string>

  /** `f` applied to each element in order; the first failure stops. */
  function MapResult<A, B>(xs: seq<A>, f: A -> Result<B, Error>): (r: Result<seq<B>, Error>)
    ensures r.Success? ==> |r.value| == |xs|
  {
    if xs == [] then Success([])
    else
      match MapResult(xs[..|xs| - 1], f)
      case Failure(e) => Failure(e)
      case Success(done) =>
        match f(xs[|xs| - 1])
        case Failure(e) => Failure(e)
        case Success(y) => Success(done + [y])
  }

  lemma MapResultStep<A, B>(xs: seq<A>, x: A, f: A -> Result<B, Error>)
    ensures MapResult(xs + [x], f) ==
              match MapResult(xs, f)
              case Failure(e) => Failure(e)
              case Success(done) =>
                match f(x)
                case Failure(e) => Failure(e)
                case Success(y) => Success(done + [y])
  {
    assert (xs + [x])[..|xs|] == xs;
  }

  lemma {:induction false} MapResultFailurePoisons<A, B>(xs: seq<A>, rest: seq<A>, f: A -> Result<B, Error>)
    requires MapResult(xs, f).Failure?
    ensures MapResult(xs + rest, f) == MapResult(xs, f)
    decreases |rest|
  {
    if rest == [] {
      assert xs + rest == xs;
    } else {
      var init := rest[..|rest| - 1];
      MapResultFailurePoisons(xs, init, f);
      assert xs + rest == (xs + init) + [rest[|rest| - 1]];
      MapResultStep(xs + init, rest[|rest| - 1], f);
    }
  }

  /** When the mapping succeeds, each result is `f` of its own element. */
  lemma {:induction false} MapResultSpec<A, B>(xs: seq<A>, f: A -> Result<B, Error>)
    requires MapResult(xs, f).Success?
    ensures forall k :: 0 <= k < |xs| ==> f(xs[k]) == Success(MapResult(xs, f).value[k])
  {
    if xs != [] {
      var n := |xs| - 1;
      var init := xs[..n];
      assert init + [xs[n]] == xs;
      MapResultStep(init, xs[n], f);
      MapResultSpec(init, f);
      var done := MapResult(init, f).value;
      var all := MapResult(xs, f).value;
      forall k | 0 <= k < |xs|
        ensures f(xs[k]) == Success(all[k])
      {
        if k < n {
          assert xs[k] == init[k] && all[k] == done[k];
        }
      }
    }
  }

  /** The analysis of one category in its own folder. */
  function Analyse(listing: Listing): (r: Category -> Result<Category, Error>) {
    cat => CategoryOrder(cat, listing(CategoryFolder(cat)))
  }

  /** Every category analysed, in order; the first failure stops the analysis. */
  function OrderedCategories(cats: seq<Category>, listing: Listing): (r: Result<seq<Category>, Error>)
    ensures r.Success? ==> |r.value| == |cats|
  {
    MapResult(cats, Analyse(listing))
  }

  /** `get_number_from_files(search_folder, channel_list)`: the channel list with every category
      analysed in its own folder. */
  method GetNumberFromFiles(backup: BackupData, listing: Listing) returns (r: Result<BackupData, Error>)
    ensures r == match OrderedCategories(backup.categories, listing)
                 case Failure(e) => Failure(e)
                 case Success(cs) => Success(backup.(categories := cs))
  {
    var cats := backup.categories;
    var done: seq<Category> := [];
    for i := 0 to |cats|
      invariant MapResult(cats[..i], Analyse(listing)) == Success(done)
    {
      assert cats[..i + 1] == cats[..i] + [cats[i]];
      MapResultStep(cats[..i], cats[i], Analyse(listing));
      var c := OrderCategory(cats[i], listing(CategoryFolder(cats[i])));
      assert c == Analyse(listing)(cats[i]);
      if c.Failure? {
        MapResultFailurePoisons(cats[..i + 1], cats[i + 1..], Analyse(listing));
        assert cats[..i + 1] + cats[i + 1..] == cats;
        return Failure(c.error);
      }
      done := done + [c.value];
    }
    assert cats[..|cats|] == cats;
    return Success(backup.(categories := done));
  }

  /** When the analysis succeeds, each category is the analysis of its own folder. */
  lemma OrderedCategoriesSpec(cats: seq<Category>, listing: Listing)
    requires OrderedCategories(cats, listing).Success?
    ensures forall k :: 0 <= k < |cats| ==>
              CategoryOrder(cats[k], listing(CategoryFolder(cats[k]))) == Success(OrderedCategories(cats, listing).value[k])
  {
    MapResultSpec(cats, Analyse(listing));
    forall k | 0 <= k < |cats|
      ensures CategoryOrder(cats[k], listing(CategoryFolder(cats[k]))) == Success(OrderedCategories(cats, listing).value[k])
    {
      assert Analyse(listing)(cats[k]) == CategoryOrder(cats[k], listing(CategoryFolder(cats[k])));
    }
  }

  // ---------------------------------------------------------------------------------------------
  // remove_number_from_files

  /** The name a file has after the clean-up; None where the source raises IndexError. */
  function CleanName(filename: string): (r: Option<string>) {
    if IsChannelFileName(filename) then StripNumber(filename) else Some(filename)
  }

  /** How many files the clean-up renames before it stops: all of them, or up to the first
      channel file without `# `. */
  function CleanStop(files: seq<string>): (n: nat)
    ensures n <= |files|
    ensures forall k :: 0 <= k < n ==> CleanName(files[k]).Some?
    ensures n < |files| ==> CleanName(files[n]).None?
  {
    if files == [] || CleanName(files[0]).None? then 0 else 1 + CleanStop(files[1..])
  }

  /** `remove_number_from_files` over the listing of the backup: every channel file loses its
      number; at the first channel file without `# ` the source raises IndexError, and the files
      renamed before it stay renamed. */
  method RemoveNumberFromFiles(files: seq<string>) returns (renamed: seq<string>, error: Option<Error>)
    ensures |renamed| == |files|
    ensures error.None? <==> CleanStop(files) == |files|
    ensures error.Some? ==> error == Some(IndexError)
    ensures forall k :: 0 <= k < |files| ==>
              renamed[k] == (if k < CleanStop(files) then CleanName(files[k]).value else files[k])
  {
    renamed := files;
    for i := 0 to |files|
      invariant |renamed| == |files| && i <= CleanStop(files)
      invariant forall k :: 0 <= k < |files| ==>
                  renamed[k] == (if k < i then CleanName(files[k]).value else files[k])
    {
      var name := files[i];
      if IsChannelFileName(name) {
        var clean := StripNumber(name);
        if clean.None? {
          CleanStopAt(files, i);
          return renamed, Some(IndexError);
        }
        renamed := renamed[i := clean.value];
      }
      CleanStopPast(files, i);
    }
    return renamed, None;
  }

  /** The clean-up stops at the first file it cannot rename. */
  lemma CleanStopAt(files: seq<string>, i: nat)
    requires i <= CleanStop(files) && i < |files| && CleanName(files[i]).None?
    ensures CleanStop(files) == i
  {
  }

  /** A file it can rename lets the clean-up go on. */
  lemma CleanStopPast(files: seq<string>, i: nat)
    requires i <= CleanStop(files) && i < |files| && CleanName(files[i]).Some?
    ensures i + 1 <= CleanStop(files)
  {
  }

  // ---------------------------------------------------------------------------------------------
  // Renaming the files

  /** Rename the channel's file (the first matching one, if any) to `f"{pos}# {old}"`. */
  function RenameChannelFile(folder: seq<string>, c: ChannelRef): (r: seq<string>) {
    match FirstMatch(folder, Normalize(c.channel))
    case None => folder
    case Some(i) => folder[i := ChannelFileName(c.position, folder[i])]
  }

  /** Rename the thread's file (found by the thread's title) to `f"{pos}-{threadPos}# {old}"`. */
  function RenameThreadFile(folder: seq<string>, t: ThreadRef): (r: seq<string>) {
    match FirstMatch(folder, Normalize(t.thread))
    case None => folder
    case Some(i) => folder[i := ThreadFileName(t.position, t.threadPosition, folder[i])]
  }

  function RenamedChannels(folder: seq<string>, chs: seq<ChannelRef>): (r: seq<string>) {
    if chs == [] then folder
    else RenameChannelFile(RenamedChannels(folder, chs[..|chs| - 1]), chs[|chs| - 1])
  }

  function RenamedThreads(folder: seq<string>, ths: seq<ThreadRef>): (r: seq<string>) {
    if ths == [] then folder
    else RenameThreadFile(RenamedThreads(folder, ths[..|ths| - 1]), ths[|ths| - 1])
  }

  /** The renaming loops of `sort_exported_files` for one category: its channel files in the
      category folder, its thread files in the folder's `Threads` sub-folder. */
  method RenameCategoryFiles(cat: Category, channelFolder: seq<string>, threadFolder: seq<string>)
    returns (channels: seq<string>, threads: seq<string>)
    ensures channels == RenamedChannels(channelFolder, cat.channels)
    ensures threads == RenamedThreads(threadFolder, cat.threads)
  {
    channels := RenameChannelFiles(channelFolder, cat.channels);
    threads := RenameThreadFiles(threadFolder, cat.threads);
  }

  /** The loop over the category's channels. */
  method RenameChannelFiles(folder: seq<string>, chs: seq<ChannelRef>) returns (files: seq<string>)
    ensures files == RenamedChannels(folder, chs)
  {
    files := folder;
    for i := 0 to |chs|
      invariant files == RenamedChannels(folder, chs[..i])
    {
      assert chs[..i + 1][..i] == chs[..i];
      var c := chs[i];
      var found := FindChannelFile(files, c.channel);
      if found.Some? {
        var k := FirstMatch(files, Normalize(c.channel)).value;
        files := files[k := ChannelFileName(c.position, found.value)];
      }
    }
    assert chs[..|chs|] == chs;
  }

  /** The loop over the category's threads, looking each file up by the thread's title. */
  method RenameThreadFiles(folder: seq<string>, ths: seq<ThreadRef>) returns (files: seq<string>)
    ensures files == RenamedThreads(folder, ths)
  {
    files := folder;
    for i := 0 to |ths|
      invariant files == RenamedThreads(folder, ths[..i])
    {
      assert ths[..i + 1][..i] == ths[..i];
      var t := ths[i];
      var found := FindChannelFile(files, t.thread);
      if found.Some? {
        var k := FirstMatch(files, Normalize(t.thread)).value;
        files := files[k := ThreadFileName(t.position, t.threadPosition, found.value)];
      }
    }
    assert ths[..|ths|] == ths;
  }

  /** Renaming a channel's file touches at most one file, the first that matches the channel's
      name; the renamed file loses its new number again in the clean-up, and, when its stem
      has neither `# ` nor `.js`, a later analysis reads back exactly the channel's position
      under the channel's key. */
  lemma RenameChannelFileSpec(folder: seq<string>, c: ChannelRef)
    ensures |RenameChannelFile(folder, c)| == |folder|
    ensures FirstMatch(folder, Normalize(c.channel)).None? ==> RenameChannelFile(folder, c) == folder
    ensures FirstMatch(folder, Normalize(c.channel)).Some? ==>
              var i := FirstMatch(folder, Normalize(c.channel)).value;
              && (forall k :: 0 <= k < |folder| && k != i ==> RenameChannelFile(folder, c)[k] == folder[k])
              && RenameChannelFile(folder, c)[i] == ChannelFileName(c.position, folder[i])
              && (!Contains(folder[i], NumberSep) ==> StripNumber(RenameChannelFile(folder, c)[i]) == Some(folder[i]))
              && (!Contains(folder[i], NumberSep) && JsonStem(folder[i]) + ".json" == folder[i]
                  && !Contains(JsonStem(folder[i]), ".js")
                  ==> ReadFileName(RenameChannelFile(folder, c)[i]) == Success((c.position, Normalize(c.channel))))
  {
    match FirstMatch(folder, Normalize(c.channel))
    case None =>
    case Some(i) =>
      if !Contains(folder[i], NumberSep) {
        StripNumberOfNewNames(c.position, 0, folder[i]);
        if JsonStem(folder[i]) + ".json" == folder[i] && !Contains(JsonStem(folder[i]), ".js") {
          ReadChannelFileName(c.position, JsonStem(folder[i]));
        }
      }
  }

  /** Renaming a thread's file touches at most the first file matching the thread's title, and
      the renamed file loses its new number again in the clean-up. */
  lemma RenameThreadFileSpec(folder: seq<string>, t: ThreadRef)
    ensures |RenameThreadFile(folder, t)| == |folder|
    ensures FirstMatch(folder, Normalize(t.thread)).None? ==> RenameThreadFile(folder, t) == folder
    ensures FirstMatch(folder, Normalize(t.thread)).Some? ==>
              var i := FirstMatch(folder, Normalize(t.thread)).value;
              && (forall k :: 0 <= k < |folder| && k != i ==> RenameThreadFile(folder, t)[k] == folder[k])
              && RenameThreadFile(folder, t)[i] == ThreadFileName(t.position, t.threadPosition, folder[i])
              && (!Contains(folder[i], NumberSep) ==> StripNumber(RenameThreadFile(folder, t)[i]) == Some(folder[i]))
  {
    match FirstMatch(folder, Normalize(t.thread))
    case None =>
    case Some(i) =>
      if !Contains(folder[i], NumberSep) {
        StripNumberOfNewNames(t.position, t.threadPosition, folder[i]);
      }
  }
}
