/** Building the backup's channel list from the chat exporter's `channels` listing
    (`get_channel_list`).

    The listing has one line per channel, `id | category / channel`, and one per thread,
    `* id | channel / thread | status`, a thread line following the line of its parent channel.
    The parser groups the entries by category, in order of first appearance, numbers the
    categories, the channels within a category, and the threads of each channel; the cleaner
    then drops the ignored categories and recounts. */
module ChannelList {
  import opened Wrappers
  import opened Strings
  import opened Exceptions

  // ---------------------------------------------------------------------------------------------
  // The channel list

  /** One listing line, read: a channel (`isThread` false, `thread` empty) or a thread, which
      carries the category and channel of the channel line before it. */
  datatype LineEntry = LineEntry(id: string, category: string, channel: string, isThread: bool,
                                 thread: string)

  datatype ChannelRef = ChannelRef(id: string, channel: string, position: int, numberOfScenes: int,
                                   numberOfMessages: int)

  datatype ThreadRef = ThreadRef(id: string, channel: string, position: int, thread: string,
                                 threadPosition: int, numberOfMessages: int)

  datatype Category = Category(category: string, position: int, numberOfChannels: int,
                               numberOfThreads: int, numberOfScenes: int,
                               channels: seq<ChannelRef>, threads: seq<ThreadRef>)

  /** The counters and categories of the backup's channel list (the server id and name, taken
      from the configuration, and the `dates`/`status`/`steps` fields, which start empty, are not
      modelled). */
  datatype BackupData = BackupData(numberOfCategories: int, numberOfChannels: int,
                                   numberOfScenes: int, categories: seq<Category>)

  const ColumnSep := " | "
  const PathSep := " / "

  /** The number of channel and thread entries of a list of categories. */
  function TotalEntries(cats: seq<Category>): (r: nat) {
    if cats == [] then 0
    else TotalEntries(cats[..|cats| - 1]) + |cats[|cats| - 1].channels| + |cats[|cats| - 1].threads|
  }

  // ---------------------------------------------------------------------------------------------
  // Reading one line

  /** `entry` stands for a line of the channel `parent`: that channel itself, or one of its
      threads. */
  predicate Consistent(parent: Option<LineEntry>, entry: Option<LineEntry>) {
    entry.Some? ==>
      && parent.Some?
      && parent.value.category == entry.value.category
      && parent.value.channel == entry.value.channel
      && (!entry.value.isThread ==> parent == entry)
  }

  /** The entry a line stands for, and the parent channel after it; None where the source raises
      (a missing ` / `, a thread before any channel, a first line that is neither). A line that is
      neither a channel nor a thread leaves `entry` as it was, so the previous entry is added
      again. A thread line keeps the parent; an entry read from a consistent state is
      consistent with the parent after it. */
  function ReadLine(line: string, parent: Option<LineEntry>, entry: Option<LineEntry>)
    : (r: Option<(Option<LineEntry>, LineEntry)>)
    ensures r.Some? && r.value.1.isThread ==> r.value.0 == parent
    ensures r.Some? && Consistent(parent, entry) ==> Consistent(r.value.0, Some(r.value.1))
  {
    var parts := Split(line, ColumnSep);
    if |parts| == 2 then
      var halves := Split(parts[1], PathSep);
      if |halves| < 2 then None
      else
        var e := LineEntry(Strip(parts[0]), Strip(halves[0]), Strip(halves[1]), false, "");
        Some((Some(e), e))
    else if |parts| == 3 then
      if parent.None? then None
      else
        var halves := Split(parts[1], PathSep);
        if |halves| < 2 then None
        else
          var e := LineEntry(Strip(RemoveChar(parts[0], '*')), parent.value.category,
                             parent.value.channel, true, Strip(halves[1]));
          Some((parent, e))
    else if entry.None? then None
    else Some((parent, entry.value))
  }

  /** A channel line `id | category / channel` is read into a channel entry with the three fields
      stripped, and becomes the new parent, whatever came before it. */
  lemma ChannelLineRead(id: string, category: string, channel: string,
                        parent: Option<LineEntry>, entry: Option<LineEntry>)
    requires !Contains(id + " |", ColumnSep) && !Contains(category + PathSep + channel, ColumnSep)
    requires !Contains(category + " /", PathSep) && !Contains(channel, PathSep)
    ensures var e := LineEntry(Strip(id), Strip(category), Strip(channel), false, "");
            ReadLine(id + ColumnSep + category + PathSep + channel, parent, entry) == Some((Some(e), e))
  {
    var path := category + PathSep + channel;
    var line := id + ColumnSep + category + PathSep + channel;
    ChannelLineParts(id, category, channel);
    ReadSplitLine(line, [id, path], [category, channel], parent, entry);
  }

  /** The pieces of a channel line. */
  lemma ChannelLineParts(id: string, category: string, channel: string)
    requires !Contains(id + " |", ColumnSep) && !Contains(category + PathSep + channel, ColumnSep)
    requires !Contains(category + " /", PathSep) && !Contains(channel, PathSep)
    ensures Split(id + ColumnSep + category + PathSep + channel, ColumnSep) == [id, category + PathSep + channel]
    ensures Split(category + PathSep + channel, PathSep) == [category, channel]
  {
    var path := category + PathSep + channel;
    assert ColumnSep[..|ColumnSep| - 1] == " |" && PathSep[..|PathSep| - 1] == " /";
    assert id + ColumnSep + category + PathSep + channel == id + ColumnSep + path;
    SplitAt(id, ColumnSep, path);
    SplitWithout(path, ColumnSep);
    SplitAt(category, PathSep, channel);
    SplitWithout(channel, PathSep);
  }

  /** ReadLine on a line whose pieces are known. */
  lemma ReadSplitLine(line: string, parts: seq<string>, halves: seq<string>,
                      parent: Option<LineEntry>, entry: Option<LineEntry>)
    requires Split(line, ColumnSep) == parts && (|parts| == 2 || |parts| == 3)
    requires Split(parts[1], PathSep) == halves && |halves| == 2
    ensures |parts| == 2 ==>
              var e := LineEntry(Strip(parts[0]), Strip(halves[0]), Strip(halves[1]), false, "");
              ReadLine(line, parent, entry) == Some((Some(e), e))
    ensures |parts| == 3 && parent.None? ==> ReadLine(line, parent, entry).None?
    ensures |parts| == 3 && parent.Some? ==>
              ReadLine(line, parent, entry)
              == Some((parent, LineEntry(Strip(RemoveChar(parts[0], '*')), parent.value.category,
                                         parent.value.channel, true, Strip(halves[1]))))
  {
  }

  /** A thread line `id | channel / thread | status` is read into a thread entry under the
      current parent channel: the id loses its `*` marks and is stripped, the thread name is the
      stripped second half of the path, and the parent stays. Before any channel line there is
      no parent, and reading fails. */
  lemma ThreadLineRead(id: string, channel: string, thread: string, status: string,
                       parent: Option<LineEntry>, entry: Option<LineEntry>)
    requires !Contains(id + " |", ColumnSep) && !Contains(channel + PathSep + thread + " |", ColumnSep)
    requires !Contains(status, ColumnSep)
    requires !Contains(channel + " /", PathSep) && !Contains(thread, PathSep)
    ensures var line := id + ColumnSep + channel + PathSep + thread + ColumnSep + status;
            && (parent.None? ==> ReadLine(line, parent, entry).None?)
            && (parent.Some? ==>
                  ReadLine(line, parent, entry)
                  == Some((parent, LineEntry(Strip(RemoveChar(id, '*')), parent.value.category,
                                             parent.value.channel, true, Strip(thread)))))
  {
    var path := channel + PathSep + thread;
    var line := id + ColumnSep + channel + PathSep + thread + ColumnSep + status;
    ThreadLineParts(id, channel, thread, status);
    ReadSplitLine(line, [id, path, status], [channel, thread], parent, entry);
  }

  /** The pieces of a thread line. */
  lemma ThreadLineParts(id: string, channel: string, thread: string, status: string)
    requires !Contains(id + " |", ColumnSep) && !Contains(channel + PathSep + thread + " |", ColumnSep)
    requires !Contains(status, ColumnSep)
    requires !Contains(channel + " /", PathSep) && !Contains(thread, PathSep)
    ensures Split(id + ColumnSep + channel + PathSep + thread + ColumnSep + status, ColumnSep)
            == [id, channel + PathSep + thread, status]
    ensures Split(channel + PathSep + thread, PathSep) == [channel, thread]
  {
    var path := channel + PathSep + thread;
    assert ColumnSep[..|ColumnSep| - 1] == " |" && PathSep[..|PathSep| - 1] == " /";
    assert id + ColumnSep + channel + PathSep + thread + ColumnSep + status
           == id + ColumnSep + (path + ColumnSep + status);
    SplitAt(id, ColumnSep, path + ColumnSep + status);
    SplitAt(path, ColumnSep, status);
    SplitWithout(status, ColumnSep);
    SplitAt(channel, PathSep, thread);
    SplitWithout(thread, PathSep);
  }

  // ---------------------------------------------------------------------------------------------
  // Adding an entry

  /** `xs.index(x)`: the first position of `x`. */
  function IndexOf(xs: seq<string>, x: string): (i: nat)
    requires x in xs
    ensures i < |xs| && xs[i] == x
    ensures forall j :: 0 <= j < i ==> xs[j] != x
  {
    if xs[0] == x then 0 else 1 + IndexOf(xs[1..], x)
  }

  /** How many of `threads` belong to `channel`. */
  function CountChannel(threads: seq<ThreadRef>, channel: string): (n: nat)
    ensures n <= |threads|
  {
    if threads == [] then 0
    else CountChannel(threads[..|threads| - 1], channel) + (if threads[|threads| - 1].channel == channel then 1 else 0)
  }

  /** The loop that computes `thread_position`: one more than the number of threads of the
      category that belong to the same channel. */
  method ThreadPosition(threads: seq<ThreadRef>, channel: string) returns (position: int)
    ensures position == 1 + CountChannel(threads, channel)
  {
    position := 1;
    var i := 0;
    while i < |threads|
      invariant 0 <= i <= |threads|
      invariant position == 1 + CountChannel(threads[..i], channel)
    {
      assert threads[..i + 1][..i] == threads[..i];
      if threads[i].channel == channel {
        position := position + 1;
      }
      i := i + 1;
    }
    assert threads[..i] == threads;
  }

  /** The parser's state between two lines: `category_list`, the categories built so far, the
      channel counter, `parent_channel` and `entry`. */
  datatype ParseState = ParseState(categoryList: seq<string>, categories: seq<Category>,
                                   numberOfChannels: int, parent: Option<LineEntry>,
                                   entry: Option<LineEntry>)

  /** A new, empty category; `position` is the length of `category_list` after the name was
      appended, plus one. */
  function NewCategory(name: string, listLength: int): (r: Category) {
    Category(name, listLength + 1, 0, 0, 0, [], [])
  }

  /** `category_list` and the categories after making sure `name` has a category. */
  function WithCategory(names: seq<string>, cats: seq<Category>, name: string)
    : (r: (seq<string>, seq<Category>))
  {
    if name in names then (names, cats)
    else (names + [name], cats + [NewCategory(name, |names| + 1)])
  }

  /** The category `cat` with entry `e` added: a channel goes to the end of `channels`, a thread
      to the end of `threads`; both take the position after the category's last channel. */
  function AddToCategory(cat: Category, e: LineEntry): (r: Category) {
    var position := |cat.channels| + 1;
    if e.isThread then
      cat.(threads := cat.threads + [ThreadRef(e.id, e.channel, position, e.thread,
                                               1 + CountChannel(cat.threads, e.channel), 0)])
    else cat.(channels := cat.channels + [ChannelRef(e.id, e.channel, position, 0, 0)])
  }

  /** Add entry `e` to its category, creating the category first if its name is new, and count it. */
  function AddEntry(st: ParseState, e: LineEntry): (r: ParseState)
    requires |st.categories| == |st.categoryList|
  {
    var (names, cats) := WithCategory(st.categoryList, st.categories, e.category);
    var idx := IndexOf(names, e.category);
    st.(categoryList := names, categories := cats[idx := AddToCategory(cats[idx], e)],
        numberOfChannels := st.numberOfChannels + 1)
  }

  const InitialState := ParseState([], [], 0, None, None)

  /** The state after a line whose reading gave `(parent, e)`. */
  function Step(st: ParseState, parent: Option<LineEntry>, e: LineEntry): (r: ParseState)
    requires |st.categories| == |st.categoryList|
  {
    AddEntry(st.(parent := parent, entry := Some(e)), e)
  }

  /** The state after the lines `lines`, one after the other; None once a line has raised. */
  function ParseLines(lines: seq<string>): (r: Option<ParseState>)
    ensures r.Some? ==> |r.value.categories| == |r.value.categoryList|
  {
    if lines == [] then Some(InitialState)
    else
      match ParseLines(lines[..|lines| - 1])
      case None => None
      case Some(st) =>
        match ReadLine(lines[|lines| - 1], st.parent, st.entry)
        case None => None
        case Some((parent, e)) => Some(Step(st, parent, e))
  }

  /** `output.strip().split("\n")`. */
  function Lines(output: string): (r: seq<string>) {
    Split(Strip(output), "\n")
  }

  /** `parse_output(output)`: the channel list, or GetChannelListError. */
  function ParsedOutput(output: string): (r: Result<BackupData, Error>) {
    match ParseLines(Lines(output))
    case None => Failure(GetChannelListError)
    case Some(st) => Success(BackupData(0, st.numberOfChannels, 0, st.categories))
  }

  /** The body of the loop for one entry: find or create its category, then append the entry to
      the category's channels or threads, counting the earlier threads of its channel. */
  method AddLineEntry(st: ParseState, e: LineEntry) returns (st': ParseState)
    requires |st.categories| == |st.categoryList|
    ensures st' == AddEntry(st, e)
  {
    var (names, cats) := WithCategory(st.categoryList, st.categories, e.category);
    var idx := IndexOf(names, e.category);
    var cat := cats[idx];
    var position := |cat.channels| + 1;
    if e.isThread {
      var threadPosition := ThreadPosition(cat.threads, e.channel);
      cat := cat.(threads := cat.threads + [ThreadRef(e.id, e.channel, position, e.thread, threadPosition, 0)]);
    } else {
      cat := cat.(channels := cat.channels + [ChannelRef(e.id, e.channel, position, 0, 0)]);
    }
    st' := st.(categoryList := names, categories := cats[idx := cat], numberOfChannels := st.numberOfChannels + 1);
  }

  /** `parse_output`, line by line. */
  method ParseOutput(output: string) returns (r: Result<BackupData, Error>)
    ensures r == ParsedOutput(output)
  {
    var lines := Lines(output);
    var st := InitialState;
    var i := 0;
    while i < |lines|
      invariant 0 <= i <= |lines|
      invariant ParseLines(lines[..i]) == Some(st)
    {
      var read := ReadLine(lines[i], st.parent, st.entry);
      ParseLinesStep(lines, i);
      if read.None? {
        PrefixFailurePoisons(lines[..i + 1], lines[i + 1..]);
        assert lines[..i + 1] + lines[i + 1..] == lines;
        return Failure(GetChannelListError);
      }
      var (parent, e) := read.value;
      st := AddLineEntry(st.(parent := parent, entry := Some(e)), e);
      i := i + 1;
    }
    assert lines[..i] == lines;
    return Success(BackupData(0, st.numberOfChannels, 0, st.categories));
  }

  // ---------------------------------------------------------------------------------------------
  // What a parse promises

  /** One more line: the parse so far, then that line read and added. */
  lemma ParseLinesStep(lines: seq<string>, i: nat)
    requires i < |lines|
    ensures ParseLines(lines[..i + 1]) ==
              match ParseLines(lines[..i])
              case None => None
              case Some(st) =>
                match ReadLine(lines[i], st.parent, st.entry)
                case None => None
                case Some((parent, e)) => Some(Step(st, parent, e))
  {
    assert lines[..i + 1][..i] == lines[..i];
  }

  /** Once a line has raised, the parse fails whatever follows. */
  lemma {:induction false} PrefixFailurePoisons(lines: seq<string>, rest: seq<string>)
    requires ParseLines(lines).None?
    ensures ParseLines(lines + rest).None?
    decreases |rest|
  {
    if rest != [] {
      var init := rest[..|rest| - 1];
      PrefixFailurePoisons(lines, init);
      assert (lines + rest)[..|lines + rest| - 1] == lines + init;
      assert ParseLines(lines + init).None?;
    } else {
      assert lines + rest == lines;
    }
  }

  /** A parse that succeeds counts every line once: `numberOfChannels` is the number of lines. */
  lemma {:induction false} ParseCountsLines(lines: seq<string>)
    requires ParseLines(lines).Some?
    ensures ParseLines(lines).value.numberOfChannels == |lines|
  {
    if lines != [] {
      ParseCountsLines(lines[..|lines| - 1]);
    }
  }

  /** A successful parse's first line is a channel line (`id | category / channel`); a listing
      that starts with a thread or with anything else fails. */
  lemma {:induction false} FirstLineIsChannel(lines: seq<string>)
    requires |lines| > 0 && ParseLines(lines).Some?
    ensures |Split(lines[0], ColumnSep)| == 2
  {
    if |lines| == 1 {
      assert lines[..0] == [];
    } else {
      var init := lines[..|lines| - 1];
      assert init[0] == lines[0];
      FirstLineIsChannel(init);
    }
  }

  /** An empty listing (nothing but white space) is not a channel list: GetChannelListError. */
  lemma EmptyOutputFails(output: string)
    requires forall i :: 0 <= i < |output| ==> IsSpace(output[i])
    ensures ParsedOutput(output) == Failure(GetChannelListError)
  {
    StripAllSpace(output);
    assert Lines(output) == [""];
    var lines := [""];
    assert lines[..0] == [];
    assert Split("", ColumnSep) == [""];
  }

  /** The channels of a category are numbered 1, 2, … */
  predicate ChannelsNumbered(cat: Category) {
    forall j :: 0 <= j < |cat.channels| ==> cat.channels[j].position == j + 1
  }

  /** Each thread takes the position after the category's last channel when it was read, which
      is a channel of the same name (its parent). */
  predicate ThreadsPlaced(cat: Category) {
    forall j :: 0 <= j < |cat.threads| ==>
      && 2 <= cat.threads[j].position <= |cat.channels| + 1
      && cat.channels[cat.threads[j].position - 2].channel == cat.threads[j].channel
  }

  /** A thread's `threadPosition` is one more than the number of earlier threads of its channel. */
  predicate ThreadsNumbered(cat: Category) {
    forall j :: 0 <= j < |cat.threads| ==>
      cat.threads[j].threadPosition == 1 + CountChannel(cat.threads[..j], cat.threads[j].channel)
  }

  predicate CategoryOk(cat: Category) {
    ChannelsNumbered(cat) && ThreadsPlaced(cat) && ThreadsNumbered(cat)
  }

  /** What holds of the categories between two lines: `category_list` names the categories, in
      order and without repetition; the k-th category (from 0) has position k + 2; every category
      is numbered as CategoryOk says; the counter counts the entries. */
  predicate CategoriesOk(st: ParseState) {
    && |st.categories| == |st.categoryList|
    && (forall k :: 0 <= k < |st.categories| ==> st.categoryList[k] == st.categories[k].category)
    && (forall i, j :: 0 <= i < j < |st.categoryList| ==> st.categoryList[i] != st.categoryList[j])
    && (forall k :: 0 <= k < |st.categories| ==> st.categories[k].position == k + 2)
    && (forall k :: 0 <= k < |st.categories| ==> CategoryOk(st.categories[k]))
    && st.numberOfChannels == TotalEntries(st.categories)
  }

  /** The category named `category` exists and its last channel is `channel`. */
  predicate LastChannelIs(st: ParseState, category: string, channel: string)
    requires |st.categories| == |st.categoryList|
  {
    && category in st.categoryList
    && var cat := st.categories[IndexOf(st.categoryList, category)];
    && |cat.channels| > 0
    && cat.channels[|cat.channels| - 1].channel == channel
  }

  /** The full invariant of the parse: CategoriesOk, the parent channel is the last channel of its
      category, and the current entry belongs to the parent. */
  predicate StateOk(st: ParseState) {
    && CategoriesOk(st)
    && (st.parent.Some? ==> LastChannelIs(st, st.parent.value.category, st.parent.value.channel))
    && Consistent(st.parent, st.entry)
  }

  lemma {:induction false} TotalEntriesUpdate(cats: seq<Category>, idx: int, c: Category)
    requires 0 <= idx < |cats|
    ensures TotalEntries(cats[idx := c]) + |cats[idx].channels| + |cats[idx].threads|
            == TotalEntries(cats) + |c.channels| + |c.threads|
  {
    var n := |cats| - 1;
    if idx < n {
      TotalEntriesUpdate(cats[..n], idx, c);
      assert cats[idx := c][..n] == cats[..n][idx := c];
    } else {
      assert cats[idx := c][..n] == cats[..n];
    }
  }

  lemma AddChannelOk(cat: Category, e: LineEntry)
    requires CategoryOk(cat) && !e.isThread
    ensures CategoryOk(AddToCategory(cat, e))
  {
    var c := AddToCategory(cat, e);
    assert c.threads == cat.threads;
    assert ChannelsNumbered(c) by {
      forall j | 0 <= j < |c.channels| ensures c.channels[j].position == j + 1 {
        if j < |cat.channels| {
          assert c.channels[j] == cat.channels[j];
        }
      }
    }
    assert ThreadsPlaced(c) by {
      forall j | 0 <= j < |c.threads|
        ensures 2 <= c.threads[j].position <= |c.channels| + 1
        ensures c.channels[c.threads[j].position - 2].channel == c.threads[j].channel
      {
        assert c.channels[cat.threads[j].position - 2] == cat.channels[cat.threads[j].position - 2];
      }
    }
  }

  lemma AddThreadOk(cat: Category, e: LineEntry)
    requires CategoryOk(cat) && e.isThread
    requires |cat.channels| > 0 && cat.channels[|cat.channels| - 1].channel == e.channel
    ensures CategoryOk(AddToCategory(cat, e))
  {
    var c := AddToCategory(cat, e);
    assert c.channels == cat.channels;
    assert ThreadsPlaced(c) by {
      forall j | 0 <= j < |c.threads|
        ensures 2 <= c.threads[j].position <= |c.channels| + 1
        ensures c.channels[c.threads[j].position - 2].channel == c.threads[j].channel
      {
        if j < |cat.threads| {
          assert c.threads[j] == cat.threads[j];
        }
      }
    }
    assert ThreadsNumbered(c) by {
      forall j | 0 <= j < |c.threads|
        ensures c.threads[j].threadPosition == 1 + CountChannel(c.threads[..j], c.threads[j].channel)
      {
        if j < |cat.threads| {
          assert c.threads[..j] == cat.threads[..j];
          assert c.threads[j] == cat.threads[j];
        } else {
          assert c.threads[..j] == cat.threads;
        }
      }
    }
  }

  /** Adding an entry to a category keeps its numbering, leaves the entry's channel as the last
      channel, adds one entry and changes neither the name nor the position. */
  lemma AddToCategoryOk(cat: Category, e: LineEntry)
    requires CategoryOk(cat)
    requires e.isThread ==> |cat.channels| > 0 && cat.channels[|cat.channels| - 1].channel == e.channel
    ensures CategoryOk(AddToCategory(cat, e))
    ensures |AddToCategory(cat, e).channels| > 0
    ensures AddToCategory(cat, e).channels[|AddToCategory(cat, e).channels| - 1].channel == e.channel
    ensures |AddToCategory(cat, e).channels| + |AddToCategory(cat, e).threads| == |cat.channels| + |cat.threads| + 1
    ensures AddToCategory(cat, e).category == cat.category && AddToCategory(cat, e).position == cat.position
  {
    if e.isThread {
      AddThreadOk(cat, e);
    } else {
      AddChannelOk(cat, e);
    }
  }

  /** Replacing one category by a well-numbered one of the same name and position keeps
      CategoriesOk, once the counter is brought up to date. */
  lemma ReplaceCategoryOk(st: ParseState, idx: int, c: Category)
    requires CategoriesOk(st) && 0 <= idx < |st.categories|
    requires c.category == st.categories[idx].category && c.position == st.categories[idx].position
    requires CategoryOk(c)
    ensures CategoriesOk(st.(categories := st.categories[idx := c],
                             numberOfChannels := TotalEntries(st.categories[idx := c])))
  {
    var cats := st.categories[idx := c];
    assert forall k :: 0 <= k < |cats| ==> cats[k] == (if k == idx then c else st.categories[k]);
  }

  /** Making sure a category exists keeps the categories consistent with their names: a known
      name changes nothing, a new one is appended with a new empty category. */
  lemma WithCategoryOk(st: ParseState, name: string)
    requires CategoriesOk(st)
    ensures var (names, cats) := WithCategory(st.categoryList, st.categories, name);
            CategoriesOk(st.(categoryList := names, categories := cats)) && name in names
            && (name in st.categoryList ==> names == st.categoryList && cats == st.categories)
            && (name !in st.categoryList ==>
                  && names == st.categoryList + [name]
                  && cats == st.categories + [NewCategory(name, |st.categoryList| + 1)])
  {
    if name !in st.categoryList {
      var cats := st.categories + [NewCategory(name, |st.categoryList| + 1)];
      assert cats[..|cats| - 1] == st.categories;
    }
  }

  /** Adding an entry keeps CategoriesOk and leaves the entry's channel last in its category. */
  lemma AddEntryOk(st: ParseState, e: LineEntry)
    requires CategoriesOk(st)
    requires e.isThread ==> LastChannelIs(st, e.category, e.channel)
    ensures CategoriesOk(AddEntry(st, e))
    ensures LastChannelIs(AddEntry(st, e), e.category, e.channel)
  {
    AddEntryKeepsCategories(st, e);
    AddEntryLastChannel(st, e);
  }

  lemma AddEntryKeepsCategories(st: ParseState, e: LineEntry)
    requires CategoriesOk(st)
    requires e.isThread ==> LastChannelIs(st, e.category, e.channel)
    ensures CategoriesOk(AddEntry(st, e))
  {
    var names, cats, idx, c := AddEntryParts(st, e);
    NewCategoryOk(st, e, names, cats, idx, c);
    ReplaceCounted(st.(categoryList := names, categories := cats), idx, c);
  }

  /** The state with the entry's category made sure of is consistent, and the category with the
      entry added is well numbered, the same category, and one entry longer. */
  lemma NewCategoryOk(st: ParseState, e: LineEntry, names: seq<string>, cats: seq<Category>, idx: nat, c: Category)
    requires CategoriesOk(st)
    requires e.isThread ==> LastChannelIs(st, e.category, e.channel)
    requires (names, cats) == WithCategory(st.categoryList, st.categories, e.category)
    requires e.category in names && idx == IndexOf(names, e.category) && |cats| == |names|
    requires c == AddToCategory(cats[idx], e)
    ensures CategoriesOk(st.(categoryList := names, categories := cats))
    ensures CategoryOk(c) && c.category == cats[idx].category && c.position == cats[idx].position
    ensures |c.channels| + |c.threads| == |cats[idx].channels| + |cats[idx].threads| + 1
  {
    WithCategoryOk(st, e.category);
    ParentFound(st, e, names, cats, idx);
    AddToCategoryOk(cats[idx], e);
  }

  /** A thread's category already exists, and its last channel is the thread's channel. */
  lemma ParentFound(st: ParseState, e: LineEntry, names: seq<string>, cats: seq<Category>, idx: nat)
    requires |st.categories| == |st.categoryList|
    requires e.isThread ==> LastChannelIs(st, e.category, e.channel)
    requires (names, cats) == WithCategory(st.categoryList, st.categories, e.category)
    requires e.category in names && idx == IndexOf(names, e.category) && |cats| == |names|
    ensures e.isThread ==> |cats[idx].channels| > 0 && cats[idx].channels[|cats[idx].channels| - 1].channel == e.channel
  {
    if e.isThread {
      assert names == st.categoryList && cats == st.categories;
    }
  }

  /** AddEntry, taken apart. */
  lemma AddEntryParts(st: ParseState, e: LineEntry)
    returns (names: seq<string>, cats: seq<Category>, idx: nat, c: Category)
    requires |st.categories| == |st.categoryList|
    ensures (names, cats) == WithCategory(st.categoryList, st.categories, e.category)
    ensures e.category in names && |cats| == |names| && idx == IndexOf(names, e.category)
    ensures c == AddToCategory(cats[idx], e)
    ensures AddEntry(st, e) == st.(categoryList := names, categories := cats[idx := c],
                                   numberOfChannels := st.numberOfChannels + 1)
  {
    var wc := WithCategory(st.categoryList, st.categories, e.category);
    names, cats := wc.0, wc.1;
    idx := IndexOf(names, e.category);
    c := AddToCategory(cats[idx], e);
  }

  /** ReplaceCategoryOk for a category that holds one entry more. */
  lemma ReplaceCounted(mid: ParseState, idx: int, c: Category)
    requires CategoriesOk(mid) && 0 <= idx < |mid.categories|
    requires c.category == mid.categories[idx].category && c.position == mid.categories[idx].position
    requires CategoryOk(c)
    requires |c.channels| + |c.threads| == |mid.categories[idx].channels| + |mid.categories[idx].threads| + 1
    ensures CategoriesOk(mid.(categories := mid.categories[idx := c], numberOfChannels := mid.numberOfChannels + 1))
  {
    ReplaceCategoryOk(mid, idx, c);
    TotalEntriesUpdate(mid.categories, idx, c);
  }

  lemma AddEntryLastChannel(st: ParseState, e: LineEntry)
    requires CategoriesOk(st)
    requires e.isThread ==> LastChannelIs(st, e.category, e.channel)
    ensures LastChannelIs(AddEntry(st, e), e.category, e.channel)
  {
    var names, cats, idx, c := AddEntryParts(st, e);
    ParentFound(st, e, names, cats, idx);
    AddToCategoryOk(cats[idx], e);
    assert cats[idx := c][idx] == c;
  }

  /** A parse that succeeds keeps the invariant after every line. */
  lemma {:induction false} ParseLinesOk(lines: seq<string>)
    requires ParseLines(lines).Some?
    ensures StateOk(ParseLines(lines).value)
  {
    if lines != [] {
      var init := lines[..|lines| - 1];
      ParseLinesOk(init);
      var st := ParseLines(init).value;
      var (parent, e) := ReadLine(lines[|lines| - 1], st.parent, st.entry).value;
      var mid := st.(parent := parent, entry := Some(e));
      assert CategoriesOk(mid);
      if e.isThread {
        assert LastChannelIs(mid, e.category, e.channel);
      }
      AddEntryOk(mid, e);
    }
  }

  // ---------------------------------------------------------------------------------------------
  // Where the entries land

  /** The entries a successful parse reads, one per line, in line order. */
  function ParsedEntries(lines: seq<string>): (es: seq<LineEntry>)
    requires ParseLines(lines).Some?
    ensures |es| == |lines|
  {
    if lines == [] then []
    else
      var st := ParseLines(lines[..|lines| - 1]).value;
      ParsedEntries(lines[..|lines| - 1]) + [ReadLine(lines[|lines| - 1], st.parent, st.entry).value.1]
  }

  /** The category of each entry. */
  function EntryCategories(es: seq<LineEntry>): (r: seq<string>)
    ensures |r| == |es|
    ensures forall i :: 0 <= i < |es| ==> r[i] == es[i].category
  {
    seq(|es|, i requires 0 <= i < |es| => es[i].category)
  }

  /** The name of each category. */
  function CategoryNames(cats: seq<Category>): (r: seq<string>)
    ensures |r| == |cats|
    ensures forall k :: 0 <= k < |cats| ==> r[k] == cats[k].category
  {
    seq(|cats|, k requires 0 <= k < |cats| => cats[k].category)
  }

  /** The distinct names of `xs`, each once, at the place of its first appearance. */
  function FirstAppearances(xs: seq<string>): (r: seq<string>)
    ensures forall x :: x in r <==> x in xs
    ensures forall i, j :: 0 <= i < j < |r| ==> r[i] != r[j]
  {
    if xs == [] then []
    else
      var init := FirstAppearances(xs[..|xs| - 1]);
      assert forall x :: x in xs <==> x in xs[..|xs| - 1] || x == xs[|xs| - 1] by {
        assert xs == xs[..|xs| - 1] + [xs[|xs| - 1]];
      }
      if xs[|xs| - 1] in init then init else init + [xs[|xs| - 1]]
  }

  /** The names come in the order of their first appearance in `xs`. */
  lemma {:induction false} FirstAppearancesInOrder(xs: seq<string>)
    ensures forall i, j :: 0 <= i < j < |FirstAppearances(xs)| ==>
              IndexOf(xs, FirstAppearances(xs)[i]) < IndexOf(xs, FirstAppearances(xs)[j])
  {
    if xs != [] {
      var init, x := xs[..|xs| - 1], xs[|xs| - 1];
      FirstAppearancesInOrder(init);
      var ri, r := FirstAppearances(init), FirstAppearances(xs);
      assert xs == init + [x];
      forall i, j | 0 <= i < j < |r| ensures IndexOf(xs, r[i]) < IndexOf(xs, r[j]) {
        assert r[i] == ri[i] && r[i] in init;
        IndexOfPrefix(init, [x], r[i]);
        if j < |ri| {
          assert r[j] == ri[j] && r[j] in init;
          IndexOfPrefix(init, [x], r[j]);
        } else {
          IndexOfLast(init, x);
        }
      }
    }
  }

  /** A name that does not occur in `xs` first occurs in `xs + [x]` at the end. */
  lemma IndexOfLast(xs: seq<string>, x: string)
    requires x !in xs
    ensures IndexOf(xs + [x], x) == |xs|
  {
    assert forall j :: 0 <= j < |xs| ==> (xs + [x])[j] == xs[j];
  }

  /** The first position of a name that occurs in `xs` is the same in `xs + ys`. */
  lemma IndexOfPrefix(xs: seq<string>, ys: seq<string>, x: string)
    requires x in xs
    ensures IndexOf(xs + ys, x) == IndexOf(xs, x)
  {
    var k := IndexOf(xs, x);
    assert (xs + ys)[k] == x;
  }

  /** The `(id, channel)` of the channel entries of `category`, in line order. */
  function ChannelsOf(es: seq<LineEntry>, category: string): (r: seq<(string, string)>) {
    if es == [] then []
    else
      var e := es[|es| - 1];
      ChannelsOf(es[..|es| - 1], category)
      + (if !e.isThread && e.category == category then [(e.id, e.channel)] else [])
  }

  /** The `(id, channel, thread)` of the thread entries of `category`, in line order. */
  function ThreadsOf(es: seq<LineEntry>, category: string): (r: seq<(string, string, string)>) {
    if es == [] then []
    else
      var e := es[|es| - 1];
      ThreadsOf(es[..|es| - 1], category)
      + (if e.isThread && e.category == category then [(e.id, e.channel, e.thread)] else [])
  }

  /** The `(id, channel)` of each channel of a category. */
  function ChannelKeys(chs: seq<ChannelRef>): (r: seq<(string, string)>)
    ensures |r| == |chs|
    ensures forall j :: 0 <= j < |chs| ==> r[j] == (chs[j].id, chs[j].channel)
  {
    seq(|chs|, j requires 0 <= j < |chs| => (chs[j].id, chs[j].channel))
  }

  /** The `(id, channel, thread)` of each thread of a category. */
  function ThreadKeys(ths: seq<ThreadRef>): (r: seq<(string, string, string)>)
    ensures |r| == |ths|
    ensures forall j :: 0 <= j < |ths| ==> r[j] == (ths[j].id, ths[j].channel, ths[j].thread)
  {
    seq(|ths|, j requires 0 <= j < |ths| => (ths[j].id, ths[j].channel, ths[j].thread))
  }

  /** The state holds exactly the entries `es`: `category_list` lists their categories by first
      appearance, and each category's channels and threads are its entries, in line order. */
  predicate HoldsEntries(st: ParseState, es: seq<LineEntry>) {
    && |st.categories| == |st.categoryList|
    && st.categoryList == FirstAppearances(EntryCategories(es))
    && forall k :: 0 <= k < |st.categories| ==>
         && ChannelKeys(st.categories[k].channels) == ChannelsOf(es, st.categories[k].category)
         && ThreadKeys(st.categories[k].threads) == ThreadsOf(es, st.categories[k].category)
  }

  /** One more entry: it lands among the channels or the threads of its own category only. */
  lemma EntriesOfAppend(es: seq<LineEntry>, e: LineEntry, category: string)
    ensures ChannelsOf(es + [e], category)
            == ChannelsOf(es, category) + (if !e.isThread && e.category == category then [(e.id, e.channel)] else [])
    ensures ThreadsOf(es + [e], category)
            == ThreadsOf(es, category) + (if e.isThread && e.category == category then [(e.id, e.channel, e.thread)] else [])
  {
    assert (es + [e])[..|es|] == es;
  }

  /** A category no entry names has neither channels nor threads among the entries. */
  lemma {:induction false} NoEntriesOf(es: seq<LineEntry>, category: string)
    requires category !in EntryCategories(es)
    ensures ChannelsOf(es, category) == [] && ThreadsOf(es, category) == []
  {
    if es != [] {
      var init := es[..|es| - 1];
      assert forall i :: 0 <= i < |init| ==> EntryCategories(init)[i] == EntryCategories(es)[i];
      assert es[|es| - 1].category == EntryCategories(es)[|es| - 1];
      NoEntriesOf(init, category);
    }
  }

  /** Adding an entry to a category appends it to the channels or to the threads. */
  lemma AddToCategoryKeys(cat: Category, e: LineEntry)
    ensures ChannelKeys(AddToCategory(cat, e).channels)
            == ChannelKeys(cat.channels) + (if e.isThread then [] else [(e.id, e.channel)])
    ensures ThreadKeys(AddToCategory(cat, e).threads)
            == ThreadKeys(cat.threads) + (if e.isThread then [(e.id, e.channel, e.thread)] else [])
  {
  }

  /** The category list after one more entry is that of the entries with it. */
  lemma NamesOfAppend(st: ParseState, es: seq<LineEntry>, e: LineEntry, names: seq<string>)
    requires st.categoryList == FirstAppearances(EntryCategories(es))
    requires names == WithCategory(st.categoryList, st.categories, e.category).0
    ensures names == FirstAppearances(EntryCategories(es + [e]))
  {
    var xs := EntryCategories(es + [e]);
    assert xs[..|xs| - 1] == EntryCategories(es);
  }

  /** Adding an entry keeps the state holding exactly the entries read. */
  lemma AddEntryHolds(st: ParseState, es: seq<LineEntry>, e: LineEntry)
    requires CategoriesOk(st) && HoldsEntries(st, es)
    ensures HoldsEntries(AddEntry(st, e), es + [e])
  {
    var names, cats, idx, c := AddEntryParts(st, e);
    WithCategoryOk(st, e.category);
    NamesOfAppend(st, es, e, names);
    AddToCategoryKeys(cats[idx], e);
    var cats' := cats[idx := c];
    forall k | 0 <= k < |cats'|
      ensures ChannelKeys(cats'[k].channels) == ChannelsOf(es + [e], cats'[k].category)
      ensures ThreadKeys(cats'[k].threads) == ThreadsOf(es + [e], cats'[k].category)
    {
      EntriesOfAppend(es, e, cats'[k].category);
      if k == idx {
        if e.category !in st.categoryList {
          NoEntriesOf(es, e.category);
        }
      } else {
        assert cats[k].category == names[k] != names[idx] == e.category;
      }
    }
  }

  /** A successful parse holds exactly the entries it read. */
  lemma {:induction false} ParseLinesHolds(lines: seq<string>)
    requires ParseLines(lines).Some?
    ensures HoldsEntries(ParseLines(lines).value, ParsedEntries(lines))
  {
    if lines != [] {
      var init := lines[..|lines| - 1];
      ParseLinesHolds(init);
      ParseLinesOk(init);
      var st := ParseLines(init).value;
      var (parent, e) := ReadLine(lines[|lines| - 1], st.parent, st.entry).value;
      AddEntryHolds(st.(parent := parent, entry := Some(e)), ParsedEntries(init), e);
    }
  }

  /** The parsed channel list: the categories have distinct names and positions 2, 3, …; within
      each, channels are numbered from 1, every thread sits after a channel of its own name and
      is numbered among that channel's threads; `numberOfChannels` counts every line and every
      entry; the category and scene counters start at zero. */
  lemma ParsedOutputSpec(output: string)
    requires ParsedOutput(output).Success?
    ensures var b := ParsedOutput(output).value;
            && b.numberOfCategories == 0 && b.numberOfScenes == 0
            && b.numberOfChannels == |Lines(output)| == TotalEntries(b.categories)
            && (forall i, j :: 0 <= i < j < |b.categories| ==> b.categories[i].category != b.categories[j].category)
            && (forall k :: 0 <= k < |b.categories| ==> b.categories[k].position == k + 2)
            && (forall k :: 0 <= k < |b.categories| ==> CategoryOk(b.categories[k]))
  {
    ParseLinesOk(Lines(output));
    ParseCountsLines(Lines(output));
  }

  /** What the parsed channel list holds: its categories are those of the entries read, each
      once, in order of first appearance (FirstAppearancesInOrder), and each category holds
      exactly its own channel entries and its own thread entries, in line order. */
  lemma ParsedOutputContents(output: string)
    requires ParsedOutput(output).Success?
    ensures var b := ParsedOutput(output).value;
            var es := ParsedEntries(Lines(output));
            && CategoryNames(b.categories) == FirstAppearances(EntryCategories(es))
            && (forall k :: 0 <= k < |b.categories| ==>
                  && ChannelKeys(b.categories[k].channels) == ChannelsOf(es, b.categories[k].category)
                  && ThreadKeys(b.categories[k].threads) == ThreadsOf(es, b.categories[k].category))
  {
    var lines := Lines(output);
    ParseLinesOk(lines);
    ParseLinesHolds(lines);
    HeldCategories(ParseLines(lines).value, ParsedEntries(lines));
  }

  /** HoldsEntries in terms of the categories alone. */
  lemma HeldCategories(st: ParseState, es: seq<LineEntry>)
    requires CategoriesOk(st) && HoldsEntries(st, es)
    ensures CategoryNames(st.categories) == FirstAppearances(EntryCategories(es))
    ensures forall k :: 0 <= k < |st.categories| ==>
              && ChannelKeys(st.categories[k].channels) == ChannelsOf(es, st.categories[k].category)
              && ThreadKeys(st.categories[k].threads) == ThreadsOf(es, st.categories[k].category)
  {
    assert CategoryNames(st.categories) == st.categoryList;
  }

  // ---------------------------------------------------------------------------------------------
  // remove_categories, keep_categories and clean_channel_list

  /** The categories whose name is not in `names`, in their order. */
  function RemoveCategories(cats: seq<Category>, names: seq<string>): (r: seq<Category>)
    ensures |r| <= |cats|
    ensures forall k :: 0 <= k < |r| ==> r[k].category !in names
  {
    if cats == [] then []
    else (if cats[0].category in names then [] else [cats[0]]) + RemoveCategories(cats[1..], names)
  }

  /** The categories whose name is in `names`, in their order. */
  function KeepCategories(cats: seq<Category>, names: seq<string>): (r: seq<Category>)
    ensures |r| <= |cats|
    ensures forall k :: 0 <= k < |r| ==> r[k].category in names
  {
    if cats == [] then []
    else (if cats[0].category in names then [cats[0]] else []) + KeepCategories(cats[1..], names)
  }

  /** Both filters distribute over concatenation, so each keeps its categories in their order. */
  lemma FiltersAppend(a: seq<Category>, b: seq<Category>, names: seq<string>)
    ensures RemoveCategories(a + b, names) == RemoveCategories(a, names) + RemoveCategories(b, names)
    ensures KeepCategories(a + b, names) == KeepCategories(a, names) + KeepCategories(b, names)
  {
    RemoveAppend(a, b, names);
    KeepAppend(a, b, names);
  }

  lemma {:induction false} RemoveAppend(a: seq<Category>, b: seq<Category>, names: seq<string>)
    ensures RemoveCategories(a + b, names) == RemoveCategories(a, names) + RemoveCategories(b, names)
  {
    if a != [] {
      var head := if a[0].category in names then [] else [a[0]];
      var rest, ra, rb := a[1..] + b, RemoveCategories(a[1..], names), RemoveCategories(b, names);
      assert a + b == [a[0]] + rest;
      RemoveAppend(a[1..], b, names);
      assert RemoveCategories(rest, names) == ra + rb;
      assert RemoveCategories(a + b, names) == head + (ra + rb);
      assert RemoveCategories(a, names) == head + ra;
      assert head + (ra + rb) == (head + ra) + rb;
    } else {
      assert a + b == b;
    }
  }

  lemma {:induction false} KeepAppend(a: seq<Category>, b: seq<Category>, names: seq<string>)
    ensures KeepCategories(a + b, names) == KeepCategories(a, names) + KeepCategories(b, names)
  {
    if a != [] {
      var head := if a[0].category in names then [a[0]] else [];
      var rest, ra, rb := a[1..] + b, KeepCategories(a[1..], names), KeepCategories(b, names);
      assert a + b == [a[0]] + rest;
      KeepAppend(a[1..], b, names);
      assert KeepCategories(rest, names) == ra + rb;
      assert KeepCategories(a + b, names) == head + (ra + rb);
      assert KeepCategories(a, names) == head + ra;
      assert head + (ra + rb) == (head + ra) + rb;
    } else {
      assert a + b == b;
    }
  }

  /** Removing keeps exactly the categories not named: a category is in the result if and only
      if it is in the input and its name is not in the list. */
  lemma {:induction false} RemoveCategoriesMembers(cats: seq<Category>, names: seq<string>, c: Category)
    ensures c in RemoveCategories(cats, names) <==> c in cats && c.category !in names
  {
    if cats != [] {
      RemoveCategoriesMembers(cats[1..], names, c);
      assert cats == [cats[0]] + cats[1..];
    }
  }

  /** Keeping keeps exactly the categories named. */
  lemma {:induction false} KeepCategoriesMembers(cats: seq<Category>, names: seq<string>, c: Category)
    ensures c in KeepCategories(cats, names) <==> c in cats && c.category in names
  {
    if cats != [] {
      KeepCategoriesMembers(cats[1..], names, c);
      assert cats == [cats[0]] + cats[1..];
    }
  }

  /** Every category goes to exactly one of the two sides, and a list none of whose categories is
      named is left as it is by removing. */
  lemma FiltersPartition(cats: seq<Category>, names: seq<string>)
    ensures |RemoveCategories(cats, names)| + |KeepCategories(cats, names)| == |cats|
    ensures (forall k :: 0 <= k < |cats| ==> cats[k].category !in names) ==> RemoveCategories(cats, names) == cats
    ensures (forall k :: 0 <= k < |cats| ==> cats[k].category in names) ==> KeepCategories(cats, names) == cats
  {
    FiltersCount(cats, names);
    if forall k :: 0 <= k < |cats| ==> cats[k].category !in names {
      RemoveNoneNamed(cats, names);
    }
    if forall k :: 0 <= k < |cats| ==> cats[k].category in names {
      KeepAllNamed(cats, names);
    }
  }

  lemma {:induction false} FiltersCount(cats: seq<Category>, names: seq<string>)
    ensures |RemoveCategories(cats, names)| + |KeepCategories(cats, names)| == |cats|
  {
    if cats != [] {
      FiltersCount(cats[1..], names);
    }
  }

  lemma {:induction false} RemoveNoneNamed(cats: seq<Category>, names: seq<string>)
    requires forall k :: 0 <= k < |cats| ==> cats[k].category !in names
    ensures RemoveCategories(cats, names) == cats
  {
    if cats != [] {
      var tail := cats[1..];
      assert forall k :: 0 <= k < |tail| ==> tail[k].category !in names by {
        forall k | 0 <= k < |tail| ensures tail[k].category !in names {
          assert tail[k] == cats[k + 1];
        }
      }
      RemoveNoneNamed(tail, names);
      assert cats[0].category !in names;
      assert RemoveCategories(cats, names) == [cats[0]] + tail;
      assert cats == [cats[0]] + tail;
    }
  }

  lemma {:induction false} KeepAllNamed(cats: seq<Category>, names: seq<string>)
    requires forall k :: 0 <= k < |cats| ==> cats[k].category in names
    ensures KeepCategories(cats, names) == cats
  {
    if cats != [] {
      var tail := cats[1..];
      assert forall k :: 0 <= k < |tail| ==> tail[k].category in names by {
        forall k | 0 <= k < |tail| ensures tail[k].category in names {
          assert tail[k] == cats[k + 1];
        }
      }
      KeepAllNamed(tail, names);
      assert cats[0].category in names;
      assert KeepCategories(cats, names) == [cats[0]] + tail;
      assert cats == [cats[0]] + tail;
    }
  }

  /** Removing twice removes no more than removing once; keeping what was removed keeps nothing. */
  lemma FiltersIdempotent(cats: seq<Category>, names: seq<string>)
    ensures RemoveCategories(RemoveCategories(cats, names), names) == RemoveCategories(cats, names)
    ensures KeepCategories(RemoveCategories(cats, names), names) == []
  {
    var r := RemoveCategories(cats, names);
    FiltersPartition(r, names);
  }

  /** A category with its counters set to the lengths of its lists. */
  function Recounted(cat: Category): (r: Category) {
    cat.(numberOfChannels := |cat.channels|, numberOfThreads := |cat.threads|)
  }

  /** `clean_channel_list`: drop the ignored categories, set each remaining category's counters
      to the lengths of its lists, the backup's channel counter to the number of channels and
      threads left, and its category counter to the number of categories left. */
  method CleanChannelList(backup: BackupData, ignore: seq<string>) returns (cleaned: BackupData)
    ensures cleaned.categories == Recount(RemoveCategories(backup.categories, ignore))
    ensures cleaned.numberOfChannels == TotalEntries(RemoveCategories(backup.categories, ignore))
    ensures cleaned.numberOfCategories == |cleaned.categories|
    ensures cleaned.numberOfScenes == backup.numberOfScenes
  {
    var kept := RemoveCategories(backup.categories, ignore);
    var cats, count := RecountCategories(kept);
    cleaned := BackupData(|cats|, count, backup.numberOfScenes, cats);
  }

  /** The loop of `clean_channel_list` over the categories kept. */
  method RecountCategories(kept: seq<Category>) returns (cats: seq<Category>, count: int)
    ensures cats == Recount(kept) && count == TotalEntries(kept)
  {
    cats := [];
    count := 0;
    var i := 0;
    while i < |kept|
      invariant 0 <= i <= |kept| && |cats| == i
      invariant forall k :: 0 <= k < i ==> cats[k] == Recounted(kept[k])
      invariant count == TotalEntries(kept[..i])
    {
      TotalEntriesStep(kept, i);
      var cat := kept[i];
      cat := cat.(numberOfChannels := |cat.channels|, numberOfThreads := |cat.threads|);
      count := count + |cat.channels| + |cat.threads|;
      cats := cats + [cat];
      i := i + 1;
    }
    assert kept[..i] == kept;
  }

  lemma TotalEntriesStep(cats: seq<Category>, i: nat)
    requires i < |cats|
    ensures TotalEntries(cats[..i + 1]) == TotalEntries(cats[..i]) + |cats[i].channels| + |cats[i].threads|
  {
    assert cats[..i + 1][..i] == cats[..i];
  }

  /** Every category recounted. */
  function Recount(cats: seq<Category>): (r: seq<Category>)
    ensures |r| == |cats|
    ensures forall k :: 0 <= k < |cats| ==> r[k] == Recounted(cats[k])
  {
    seq(|cats|, k requires 0 <= k < |cats| => Recounted(cats[k]))
  }

  /** The sum of the per-category channel and thread counters. */
  function SumCounters(cats: seq<Category>): (r: int) {
    if cats == [] then 0
    else SumCounters(cats[..|cats| - 1]) + cats[|cats| - 1].numberOfChannels + cats[|cats| - 1].numberOfThreads
  }

  /** After cleaning, the counters agree with the contents: every category's counters are the
      lengths of its lists, the per-category counters add up to the backup's channel counter, and
      the lists themselves are those of the categories kept. */
  lemma {:induction false} RecountSum(cats: seq<Category>)
    ensures TotalEntries(Recount(cats)) == TotalEntries(cats) == SumCounters(Recount(cats))
    ensures forall k :: 0 <= k < |cats| ==>
              && Recount(cats)[k].numberOfChannels == |Recount(cats)[k].channels| == |cats[k].channels|
              && Recount(cats)[k].numberOfThreads == |Recount(cats)[k].threads| == |cats[k].threads|
              && Recount(cats)[k].channels == cats[k].channels && Recount(cats)[k].threads == cats[k].threads
  {
    if cats != [] {
      var n := |cats| - 1;
      RecountSum(cats[..n]);
      assert Recount(cats)[..n] == Recount(cats[..n]);
      assert Recount(cats)[n] == Recounted(cats[n]);
    }
  }

  /** Cleaning a parsed channel list keeps the parser's numbering and leaves no ignored category. */
  lemma CleanKeepsNumbering(cats: seq<Category>, ignore: seq<string>)
    requires forall k :: 0 <= k < |cats| ==> CategoryOk(cats[k])
    ensures forall k :: 0 <= k < |Recount(RemoveCategories(cats, ignore))| ==>
              && CategoryOk(Recount(RemoveCategories(cats, ignore))[k])
              && Recount(RemoveCategories(cats, ignore))[k].category !in ignore
  {
    var kept := RemoveCategories(cats, ignore);
    forall k | 0 <= k < |kept|
      ensures CategoryOk(Recount(kept)[k]) && Recount(kept)[k].category !in ignore
    {
      assert kept[k] in kept;
      RemoveCategoriesMembers(cats, ignore, kept[k]);
      var m :| 0 <= m < |cats| && cats[m] == kept[k];
      RecountedOk(cats[m]);
      assert Recount(kept)[k] == Recounted(cats[m]);
    }
  }

  lemma RecountedOk(c: Category)
    requires CategoryOk(c)
    ensures CategoryOk(Recounted(c)) && Recounted(c).category == c.category
  {
    var r := Recounted(c);
    assert r.channels == c.channels && r.threads == c.threads;
  }
}
