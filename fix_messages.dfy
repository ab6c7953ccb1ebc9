/** `fix_messages_in_channel` of `fix_bad_messages`: the pass over a channel's messages that
    removes the messages of human users consisting of a mention only, while iterating over the
    same list, and looks up (but never writes back) fixed versions of known bad messages. */
module FixMessages {
  import opened Wrappers
  import opened Strings
  import opened Messages
  import opened Exceptions

  // ---------------------------------------------------------------------------------------------
  // Which messages are removed

  /** A character `\w` matches (ASCII letters, digits and the underscore). */
  predicate IsWordChar(c: char) {
    ('a' <= c <= 'z') || ('A' <= c <= 'Z') || ('0' <= c <= '9') || c == '_'
  }

  /** One or more characters of the class `[\w ]`. */
  predicate MentionBody(s: string) {
    |s| >= 1 && forall i :: 0 <= i < |s| ==> IsWordChar(s[i]) || s[i] == ' '
  }

  /** `re.search(r"^@[\w ]+$", content)`: an `@` and one or more word characters or spaces up
      to the end of the content, where `$` also matches just before one final newline. */
  predicate IsMentionOnly(content: string) {
    |content| >= 2 && content[0] == '@' &&
      (MentionBody(content[1..]) || (content[|content| - 1] == '\n' && MentionBody(content[1..|content| - 1])))
  }

  /** The version of the message the checks look at: the fixed version when its id has one. */
  function Current(m: Message, fixed: map<string, Message>): (r: Message)
    ensures m.id in fixed ==> r == fixed[m.id]
    ensures m.id !in fixed ==> r == m
  {
    if m.id in fixed then fixed[m.id] else m
  }

  /** The removal test: a "Default" message whose author id parses to at least 100000 (a human
      user, not a character) and whose content is a mention only. The author id is parsed only
      for "Default" messages, and an id `int()` rejects raises ValueError. */
  function ShouldRemove(m: Message): (r: Result<bool, Error>)
    ensures r.Failure? <==> m.msgType == "Default" && ParseInt(m.author.id).None?
    ensures r.Failure? ==> r.error == ValueError
    ensures r == Success(true) <==>
              m.msgType == "Default" && ParseInt(m.author.id).Some? && ParseInt(m.author.id).value >= 100000
              && IsMentionOnly(m.content)
  {
    if m.msgType != "Default" then Success(false)
    else match ParseInt(m.author.id)
      case None => Failure(ValueError)
      case Some(v) => Success(v >= 100000 && IsMentionOnly(m.content))
  }

  predicate Removable(m: Message) {
    ShouldRemove(m) == Success(true)
  }

  // ---------------------------------------------------------------------------------------------
  // list.remove

  /** The first position holding the message. */
  function FirstIndex(ms: seq<Message>, m: Message): (r: Option<nat>)
    ensures r.Some? ==> r.value < |ms| && ms[r.value] == m
    ensures r.Some? ==> forall k :: 0 <= k < r.value ==> ms[k] != m
    ensures r.None? <==> m !in ms
  {
    if ms == [] then None
    else if ms[0] == m then Some(0)
    else match FirstIndex(ms[1..], m)
      case None => None
      case Some(k) => Some(k + 1)
  }

  function RemoveAt(ms: seq<Message>, j: nat): (r: seq<Message>)
    requires j < |ms|
    ensures |r| == |ms| - 1
    ensures forall k :: 0 <= k < j ==> r[k] == ms[k]
    ensures forall k :: j <= k < |r| ==> r[k] == ms[k + 1]
  {
    ms[..j] + ms[j + 1..]
  }

  lemma RemoveAtMultiset(ms: seq<Message>, j: nat)
    requires j < |ms|
    ensures multiset(RemoveAt(ms, j)) == multiset(ms) - multiset{ms[j]}
  {
    assert ms == ms[..j] + [ms[j]] + ms[j + 1..];
  }

  // ---------------------------------------------------------------------------------------------
  // The loop as written

  /** The `for` loop from position `i` of the list as it now stands: Python's list iterator
      walks positions, so after a removal at or before the current position the next message
      moves into it and is not examined. A removal whose message is not in the list raises
      ValueError. */
  function FixFrom(ms: seq<Message>, i: nat, fixed: map<string, Message>): (r: Result<seq<Message>, Error>)
    decreases |ms| - i
  {
    if i >= |ms| then Success(ms)
    else
      var m := Current(ms[i], fixed);
      match ShouldRemove(m)
      case Failure(e) => Failure(e)
      case Success(remove) =>
        if !remove then FixFrom(ms, i + 1, fixed)
        else match FirstIndex(ms, m)
          case None => Failure(ValueError)
          case Some(j) => FixFrom(RemoveAt(ms, j), i + 1, fixed)
  }

  /** `fix_messages_in_channel(messages, fixed_messages)`: the list after the loop. */
  function Fixed(messages: seq<Message>, fixed: map<string, Message>): (r: Result<seq<Message>, Error>) {
    FixFrom(messages, 0, fixed)
  }

  /** `fix_messages_in_channel`, the loop over the list it shortens. */
  method FixMessagesInChannel(messages: seq<Message>, fixed: map<string, Message>) returns (r: Result<seq<Message>, Error>)
    ensures r == Fixed(messages, fixed)
  {
    var ms := messages;
    var i := 0;
    while i < |ms|
      invariant FixFrom(ms, i, fixed) == Fixed(messages, fixed)
      decreases |ms| - i
    {
      var m := ms[i];
      if m.id in fixed {
        m := fixed[m.id];
      }
      if m.msgType == "Default" {
        var id := ParseInt(m.author.id);
        if id.None? {
          return Failure(ValueError);
        }
        if id.value >= 100000 && IsMentionOnly(m.content) {
          var j := FirstIndex(ms, m);
          if j.None? {
            return Failure(ValueError);
          }
          ms := RemoveAt(ms, j.value);
        }
      }
      i := i + 1;
    }
    return Success(ms);
  }

  // ---------------------------------------------------------------------------------------------
  // What the loop does

  /** `a` is `b` with some elements left out, the rest in order. */
  predicate Sub(a: seq<Message>, b: seq<Message>)
    decreases |b|
  {
    if a == [] then true
    else if b == [] then false
    else (a[0] == b[0] && Sub(a[1..], b[1..])) || Sub(a, b[1..])
  }

  lemma {:induction false} SubRefl(a: seq<Message>)
    ensures Sub(a, a)
  {
    if a != [] {
      SubRefl(a[1..]);
    }
  }

  lemma {:induction false} SubRemoveAt(b: seq<Message>, j: nat)
    requires j < |b|
    ensures Sub(RemoveAt(b, j), b)
  {
    if j == 0 {
      SubRefl(b[1..]);
      assert RemoveAt(b, 0) == b[1..];
    } else {
      SubRemoveAt(b[1..], j - 1);
      var r := RemoveAt(b, j);
      assert r[0] == b[0];
      assert r[1..] == RemoveAt(b[1..], j - 1);
    }
  }

  lemma {:induction false} SubTrans(a: seq<Message>, b: seq<Message>, c: seq<Message>)
    requires Sub(a, b) && Sub(b, c)
    ensures Sub(a, c)
    decreases |c|
  {
    if a != [] {
      if Sub(b, c[1..]) {
        SubTrans(a, b, c[1..]);
      } else if a[0] == b[0] && Sub(a[1..], b[1..]) {
        SubTrans(a[1..], b[1..], c[1..]);
      } else {
        SubTrans(a, b[1..], c[1..]);
      }
    }
  }

  /** The loop only removes: what is left is the list with some messages left out, in the same
      order. In particular no fixed version is ever written into the list. */
  lemma {:induction false} FixFromIsSub(ms: seq<Message>, i: nat, fixed: map<string, Message>)
    requires FixFrom(ms, i, fixed).Success?
    ensures Sub(FixFrom(ms, i, fixed).value, ms)
    decreases |ms| - i
  {
    if i >= |ms| {
      SubRefl(ms);
    } else {
      var m := Current(ms[i], fixed);
      if ShouldRemove(m) == Success(false) {
        FixFromIsSub(ms, i + 1, fixed);
      } else {
        var j := FirstIndex(ms, m).value;
        FixFromIsSub(RemoveAt(ms, j), i + 1, fixed);
        SubRemoveAt(ms, j);
        SubTrans(FixFrom(ms, i, fixed).value, RemoveAt(ms, j), ms);
      }
    }
  }

  /** Every message the loop drops passes the removal test, and none is dropped more often than
      it occurs. */
  lemma {:induction false} FixFromRemovesOnlyRemovable(ms: seq<Message>, i: nat, fixed: map<string, Message>)
    requires FixFrom(ms, i, fixed).Success?
    ensures multiset(FixFrom(ms, i, fixed).value) <= multiset(ms)
    ensures forall x :: multiset(FixFrom(ms, i, fixed).value)[x] < multiset(ms)[x] ==> Removable(x)
    decreases |ms| - i
  {
    if i < |ms| {
      var m := Current(ms[i], fixed);
      if ShouldRemove(m) == Success(false) {
        FixFromRemovesOnlyRemovable(ms, i + 1, fixed);
      } else {
        var j := FirstIndex(ms, m).value;
        var rest := RemoveAt(ms, j);
        assert FixFrom(ms, i, fixed) == FixFrom(rest, i + 1, fixed);
        var out := FixFrom(rest, i + 1, fixed).value;
        FixFromRemovesOnlyRemovable(rest, i + 1, fixed);
        assert ms[j] == m && Removable(m);
        RemovalKeepsBound(ms, j, out);
      }
    }
  }

  /** Dropping one removable message keeps the bound of FixFromRemovesOnlyRemovable. */
  lemma RemovalKeepsBound(ms: seq<Message>, j: nat, out: seq<Message>)
    requires j < |ms| && Removable(ms[j])
    requires multiset(out) <= multiset(RemoveAt(ms, j))
    requires forall x :: multiset(out)[x] < multiset(RemoveAt(ms, j))[x] ==> Removable(x)
    ensures multiset(out) <= multiset(ms)
    ensures forall x :: multiset(out)[x] < multiset(ms)[x] ==> Removable(x)
  {
    var rest := RemoveAt(ms, j);
    RemoveAtMultiset(ms, j);
    forall x | multiset(out)[x] < multiset(ms)[x] ensures Removable(x) {
      if x != ms[j] {
        assert multiset(rest)[x] == multiset(ms)[x];
      }
    }
  }

  /** The loop's result, stated for the whole list. */
  lemma FixedSpec(messages: seq<Message>, fixed: map<string, Message>)
    requires Fixed(messages, fixed).Success?
    ensures Sub(Fixed(messages, fixed).value, messages)
    ensures multiset(Fixed(messages, fixed).value) <= multiset(messages)
    ensures forall x :: multiset(Fixed(messages, fixed).value)[x] < multiset(messages)[x] ==> Removable(x)
  {
    FixFromIsSub(messages, 0, fixed);
    FixFromRemovesOnlyRemovable(messages, 0, fixed);
  }

  /** Author ids `int()` accepts on every "Default" message. */
  predicate IdsParse(ms: seq<Message>) {
    forall k :: 0 <= k < |ms| && ms[k].msgType == "Default" ==> ParseInt(ms[k].author.id).Some?
  }

  /** With no fixed versions, and author ids that parse, the loop cannot fail: the message it
      removes is the one it is looking at, so it is in the list. */
  lemma {:induction false} NoFixesNeverFails(ms: seq<Message>, i: nat)
    requires IdsParse(ms)
    ensures FixFrom(ms, i, map[]).Success?
    decreases |ms| - i
  {
    if i < |ms| {
      var m := Current(ms[i], map[]);
      assert m == ms[i];
      if ShouldRemove(m) == Success(false) {
        NoFixesNeverFails(ms, i + 1);
      } else {
        var j := FirstIndex(ms, m).value;
        var rest := RemoveAt(ms, j);
        forall k | 0 <= k < |rest| && rest[k].msgType == "Default"
          ensures ParseInt(rest[k].author.id).Some?
        {
          if k < j {
            assert rest[k] == ms[k];
          } else {
            assert rest[k] == ms[k + 1];
          }
        }
        NoFixesNeverFails(rest, i + 1);
      }
    }
  }

  // ---------------------------------------------------------------------------------------------
  // The loop as evidently intended, and where the two differ

  /** A human user's message that is a mention only. */
  const MentionA := Message("1", "Default", "@Bee", Author("200000", "Ann", false))
  const MentionB := Message("2", "Default", "@Cat", Author("200001", "Bob", false))

  /** Two mention-only messages in a row: removing the first moves the second into the current
      position, the iterator goes past it, and it stays. */
  lemma SkipAfterRemove()
    ensures Removable(MentionA) && Removable(MentionB)
    ensures Fixed([MentionA, MentionB], map[]) == Success([MentionB])
  {
    assert MentionA.content[1..] == "Bee";
    assert MentionB.content[1..] == "Cat";
    var ms := [MentionA, MentionB];
    assert FirstIndex(ms, MentionA) == Some(0);
    assert RemoveAt(ms, 0) == [MentionB];
    assert FixFrom([MentionB], 1, map[]) == Success([MentionB]);
    assert ParseInt("200000") == Some(200000) by {
      assert "200000"[..5] == "20000";
      assert "20000"[..4] == "2000";
      assert "2000"[..3] == "200";
      assert "200"[..2] == "20";
      assert "20"[..1] == "2";
      assert "2"[..0] == "";
    }
    assert ParseInt("200001") == Some(200001) by {
      assert "200001"[..5] == "20000";
      assert "20000"[..4] == "2000";
      assert "2000"[..3] == "200";
      assert "200"[..2] == "20";
      assert "20"[..1] == "2";
      assert "2"[..0] == "";
    }
  }

  /** A fixed version replaces only the loop variable: the list keeps the bad message. */
  lemma FixedVersionIgnored()
    ensures var bad := Message("7", "Reply", "bad", Author("3", "Bee", true));
            var good := Message("7", "Reply", "good", Author("3", "Bee", true));
            Fixed([bad], map["7" := good]) == Success([bad])
  {
  }

  /** A fixed version that passes the removal test is removed from the list by value; when the
      list holds the bad message instead, `list.remove` raises ValueError. */
  lemma RemovingFixedVersionFails()
    ensures var bad := Message("1", "Default", "@Bee hi!", Author("200000", "Ann", false));
            Fixed([bad], map["1" := MentionA]) == Failure(ValueError)
  {
    SkipAfterRemove();
    var bad := Message("1", "Default", "@Bee hi!", Author("200000", "Ann", false));
    assert FirstIndex([bad], MentionA) == None by {
      assert bad.content != MentionA.content;
    }
  }

  /** The pass as its description says it works: each message is replaced by its fixed version
      when there is one, and removed when that version passes the removal test. */
  function IntendedFixed(messages: seq<Message>, fixed: map<string, Message>): (r: Result<seq<Message>, Error>) {
    if messages == [] then Success([])
    else
      var kept := IntendedFixed(messages[..|messages| - 1], fixed);
      var m := Current(messages[|messages| - 1], fixed);
      var remove := ShouldRemove(m);
      if kept.Failure? then kept
      else if remove.Failure? then Failure(remove.error)
      else Success(kept.value + (if remove.value then [] else [m]))
  }

  /** Every message with its fixed version in place. */
  function Replaced(messages: seq<Message>, fixed: map<string, Message>): (r: seq<Message>)
    ensures |r| == |messages|
    ensures forall k :: 0 <= k < |messages| ==> r[k] == Current(messages[k], fixed)
  {
    seq(|messages|, k requires 0 <= k < |messages| => Current(messages[k], fixed))
  }

  /** The intended pass fails exactly when some "Default" message (in its fixed version) has an
      author id `int()` rejects. */
  lemma {:induction false} IntendedFixedFails(messages: seq<Message>, fixed: map<string, Message>)
    ensures IntendedFixed(messages, fixed).Failure? <==> !IdsParse(Replaced(messages, fixed))
  {
    if messages != [] {
      var n := |messages| - 1;
      IntendedFixedFails(messages[..n], fixed);
      var all := Replaced(messages, fixed);
      var init := Replaced(messages[..n], fixed);
      assert init == all[..n];
      if !IdsParse(init) {
        var k :| 0 <= k < |init| && init[k].msgType == "Default" && ParseInt(init[k].author.id).None?;
        assert all[k] == init[k];
      }
      if !IdsParse(all) {
        var k :| 0 <= k < |all| && all[k].msgType == "Default" && ParseInt(all[k].author.id).None?;
        if k < n {
          assert init[k] == all[k];
        }
      }
    }
  }

  /** The intended pass removes every message that fails the clean-up, keeps every other one in
      its fixed version, and keeps the order. */
  lemma IntendedFixedSpec(messages: seq<Message>, fixed: map<string, Message>)
    requires IntendedFixed(messages, fixed).Success?
    ensures var r := IntendedFixed(messages, fixed).value;
            && Sub(r, Replaced(messages, fixed))
            && (forall k :: 0 <= k < |r| ==> !Removable(r[k]))
            && (forall x :: !Removable(x) ==> multiset(r)[x] == multiset(Replaced(messages, fixed))[x])
  {
    IntendedFixedSub(messages, fixed);
    IntendedFixedClean(messages, fixed);
    IntendedFixedKeeps(messages, fixed);
  }

  /** One more message: the intended pass either drops its fixed version or appends it. */
  lemma IntendedFixedStep(messages: seq<Message>, m: Message, fixed: map<string, Message>)
    requires IntendedFixed(messages + [m], fixed).Success?
    ensures IntendedFixed(messages, fixed).Success?
    ensures IntendedFixed(messages + [m], fixed).value ==
              IntendedFixed(messages, fixed).value + (if Removable(Current(m, fixed)) then [] else [Current(m, fixed)])
  {
    assert (messages + [m])[..|messages|] == messages;
  }

  lemma ReplacedAppend(messages: seq<Message>, m: Message, fixed: map<string, Message>)
    ensures Replaced(messages + [m], fixed) == Replaced(messages, fixed) + [Current(m, fixed)]
  {
  }

  /** Splitting off the last message. */
  lemma LastSplit(messages: seq<Message>)
    requires messages != []
    ensures messages[..|messages| - 1] + [messages[|messages| - 1]] == messages
  {
  }

  lemma {:induction false} IntendedFixedSub(messages: seq<Message>, fixed: map<string, Message>)
    requires IntendedFixed(messages, fixed).Success?
    ensures Sub(IntendedFixed(messages, fixed).value, Replaced(messages, fixed))
  {
    if messages != [] {
      var n := |messages| - 1;
      LastSplit(messages);
      IntendedFixedStep(messages[..n], messages[n], fixed);
      ReplacedAppend(messages[..n], messages[n], fixed);
      IntendedFixedSub(messages[..n], fixed);
      var kept := IntendedFixed(messages[..n], fixed).value;
      var m := Current(messages[n], fixed);
      if Removable(m) {
        assert kept + [] == kept;
        SubAppendRight(kept, Replaced(messages[..n], fixed), m);
      } else {
        SubAppendBoth(kept, Replaced(messages[..n], fixed), m);
      }
    }
  }

  lemma {:induction false} IntendedFixedClean(messages: seq<Message>, fixed: map<string, Message>)
    requires IntendedFixed(messages, fixed).Success?
    ensures forall k :: 0 <= k < |IntendedFixed(messages, fixed).value| ==> !Removable(IntendedFixed(messages, fixed).value[k])
  {
    if messages != [] {
      var n := |messages| - 1;
      LastSplit(messages);
      IntendedFixedStep(messages[..n], messages[n], fixed);
      ReplacedAppend(messages[..n], messages[n], fixed);
      IntendedFixedClean(messages[..n], fixed);
    }
  }

  lemma {:induction false} IntendedFixedKeeps(messages: seq<Message>, fixed: map<string, Message>)
    requires IntendedFixed(messages, fixed).Success?
    ensures forall x :: !Removable(x) ==>
              multiset(IntendedFixed(messages, fixed).value)[x] == multiset(Replaced(messages, fixed))[x]
  {
    if messages != [] {
      var n := |messages| - 1;
      LastSplit(messages);
      IntendedFixedStep(messages[..n], messages[n], fixed);
      ReplacedAppend(messages[..n], messages[n], fixed);
      IntendedFixedKeeps(messages[..n], fixed);
    }
  }

  lemma {:induction false} SubAppendRight(a: seq<Message>, b: seq<Message>, m: Message)
    requires Sub(a, b)
    ensures Sub(a, b + [m])
    decreases |b|
  {
    if a != [] {
      assert (b + [m])[1..] == b[1..] + [m];
      if a[0] == b[0] && Sub(a[1..], b[1..]) {
        SubAppendRight(a[1..], b[1..], m);
      } else {
        SubAppendRight(a, b[1..], m);
      }
    }
  }

  lemma {:induction false} SubAppendBoth(a: seq<Message>, b: seq<Message>, m: Message)
    requires Sub(a, b)
    ensures Sub(a + [m], b + [m])
    decreases |b|
  {
    if b == [] {
      assert a == [];
      assert Sub(([] + [m])[1..], ([] + [m])[1..]);
    } else {
      assert (b + [m])[1..] == b[1..] + [m];
      if a == [] {
        SubAppendBoth(a, b[1..], m);
        assert a + [m] == [m];
      } else if a[0] == b[0] && Sub(a[1..], b[1..]) {
        SubAppendBoth(a[1..], b[1..], m);
        assert (a + [m])[1..] == a[1..] + [m];
      } else {
        SubAppendBoth(a, b[1..], m);
      }
    }
  }

  /** With no fixed versions, the two agree on a list where the test removes nothing. */
  lemma {:induction false} IntendedAgreesWhenNothingRemoved(ms: seq<Message>, i: nat)
    requires forall k :: 0 <= k < |ms| ==> ShouldRemove(ms[k]) == Success(false)
    ensures FixFrom(ms, i, map[]) == Success(ms)
    decreases |ms| - i
  {
    if i < |ms| {
      assert Current(ms[i], map[]) == ms[i];
      IntendedAgreesWhenNothingRemoved(ms, i + 1);
    }
  }
}
