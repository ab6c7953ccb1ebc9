/** The character registry of `assign_ids`: the list of characters (each with its alternate
    versions), the map from every registered name to an id, the lookups over the list, and the
    pass over a channel's messages that gives every bot author the id of its name, registering
    the names it has not seen. */
module CharacterIds {
  import opened Wrappers
  import opened Strings
  import opened Messages
  import opened Exceptions

  // ---------------------------------------------------------------------------------------------
  // check_base_status

  /** `check_base_status()` of `assign_ids` on the `status` object of the channel list (None when
      the file cannot be read or has no `status`): the main status before the step, and the status
      object to save, with `main` and `idAssignStatus` set to "running". Unlike the merge gate it
      does not look at an earlier step's status. */
  function CheckBaseStatus(status: Option<map<string, string>>): (r: Result<(string, map<string, string>), Error>)
    ensures r.Success? <==>
              && status.Some? && "main" in status.value
              && status.value["main"] != "running" && status.value["main"] != "failed"
    ensures r.Success? ==> r.value.0 == status.value["main"]
    ensures r.Success? ==> "main" in r.value.1 && "idAssignStatus" in r.value.1
    ensures r.Success? ==> r.value.1["main"] == "running" && r.value.1["idAssignStatus"] == "running"
    ensures r.Success? ==> forall k :: k in status.value && k != "main" && k != "idAssignStatus" ==>
                                         k in r.value.1 && r.value.1[k] == status.value[k]
    ensures r.Success? ==> r.value.1.Keys == status.value.Keys + {"main", "idAssignStatus"}
    ensures r == Failure(AlreadyRunningError) <==>
              status.Some? && "main" in status.value && status.value["main"] == "running"
    ensures r == Failure(DataNotReadyError) <==>
              status.Some? && "main" in status.value && status.value["main"] == "failed"
    ensures r.Failure? ==> r.error in {AssignIdError, AlreadyRunningError, DataNotReadyError}
  {
    if status.None? || "main" !in status.value then Failure(AssignIdError)
    else
      var s := status.value;
      if s["main"] == "running" then Failure(AlreadyRunningError)
      else if s["main"] == "failed" then Failure(DataNotReadyError)
      else Success((s["main"], s["main" := "running"]["idAssignStatus" := "running"]))
  }

  // ---------------------------------------------------------------------------------------------
  // Characters

  /** An entry of the character ids file. The alternate versions are entries of the same shape;
      the core never looks at an alternate's own alternates. */
  datatype Character = Character(id: int, names: seq<string>, writer: seq<string>, tags: seq<string>,
                                 otherVersions: seq<Character>)

  /** `character_info(id, name)`: a new entry with one name and nothing else filled in. */
  function CharacterInfo(id: int, name: string): (c: Character)
    ensures c.id == id && c.names == [name]
    ensures c.writer == [] && c.tags == [] && c.otherVersions == []
  {
    Character(id, [name], [], [], [])
  }

  // ---------------------------------------------------------------------------------------------
  // build_id_lookup_map

  /** A name registered under an id. */
  type Registration = (string, int)

  /** `register(char)`: every name of the entry, under the entry's id. */
  function NameRegs(c: Character): (r: seq<Registration>)
    ensures |r| == |c.names|
    ensures forall i :: 0 <= i < |r| ==> r[i] == (c.names[i], c.id)
  {
    seq(|c.names|, i requires 0 <= i < |c.names| => (c.names[i], c.id))
  }

  /** The registrations of a list of alternate versions, one after the other. */
  function AltRegs(alts: seq<Character>): (r: seq<Registration>) {
    if alts == [] then [] else AltRegs(alts[..|alts| - 1]) + NameRegs(alts[|alts| - 1])
  }

  /** The registrations `build_id_lookup_map` makes, in order: each character's names, then the
      names of each of its alternates. */
  function Registrations(chars: seq<Character>): (r: seq<Registration>) {
    if chars == [] then []
    else
      var c := chars[|chars| - 1];
      Registrations(chars[..|chars| - 1]) + (NameRegs(c) + AltRegs(c.otherVersions))
  }

  /** The dict after applying `regs` to `m` in order, `m[name] = id` each. */
  function MapFrom(m: map<string, int>, regs: seq<Registration>): (r: map<string, int>) {
    if regs == [] then m
    else MapFrom(m, regs[..|regs| - 1])[regs[|regs| - 1].0 := regs[|regs| - 1].1]
  }

  /** `build_id_lookup_map(characters)`. */
  function IdMap(chars: seq<Character>): (r: map<string, int>) {
    MapFrom(map[], Registrations(chars))
  }

  /** The id of the LAST registration of `name`, the reference for what the dict holds. */
  function LastReg(regs: seq<Registration>, name: string): (r: Option<int>)
    ensures r.None? ==> forall i :: 0 <= i < |regs| ==> regs[i].0 != name
  {
    if regs == [] then None
    else if regs[|regs| - 1].0 == name then Some(regs[|regs| - 1].1)
    else LastReg(regs[..|regs| - 1], name)
  }

  lemma {:induction false} MapFromAppend(m: map<string, int>, a: seq<Registration>, b: seq<Registration>)
    ensures MapFrom(m, a + b) == MapFrom(MapFrom(m, a), b)
    decreases |b|
  {
    if b == [] {
      assert a + b == a;
    } else {
      MapFromAppend(m, a, b[..|b| - 1]);
      assert (a + b)[..|a + b| - 1] == a + b[..|b| - 1];
    }
  }

  /** A name is in the dict exactly when it was there already or is registered; a registered
      name maps to the id of its last registration, so later registrations overwrite earlier
      ones; a name never registered keeps its old id. */
  lemma {:induction false} MapFromLookup(m: map<string, int>, regs: seq<Registration>, name: string)
    ensures name in MapFrom(m, regs) <==> name in m || LastReg(regs, name).Some?
    ensures LastReg(regs, name).Some? ==> MapFrom(m, regs)[name] == LastReg(regs, name).value
    ensures LastReg(regs, name).None? && name in m ==> MapFrom(m, regs)[name] == m[name]
  {
    if regs != [] {
      MapFromLookup(m, regs[..|regs| - 1], name);
    }
  }

  /** The last registration of a name is one of the registrations, and none after it is of that
      name. */
  lemma {:induction false} LastRegSpec(regs: seq<Registration>, name: string) returns (i: int)
    requires LastReg(regs, name).Some?
    ensures 0 <= i < |regs| && regs[i] == (name, LastReg(regs, name).value)
    ensures forall j :: i < j < |regs| ==> regs[j].0 != name
  {
    if regs[|regs| - 1].0 == name {
      i := |regs| - 1;
    } else {
      i := LastRegSpec(regs[..|regs| - 1], name);
    }
  }

  /** `register(char)`, the loop over the entry's names. */
  method RegisterNames(m: map<string, int>, c: Character) returns (m': map<string, int>)
    ensures m' == MapFrom(m, NameRegs(c))
  {
    m' := m;
    var regs := NameRegs(c);
    for j := 0 to |c.names|
      invariant m' == MapFrom(m, regs[..j])
    {
      assert regs[..j + 1][..j] == regs[..j];
      m' := m'[c.names[j] := c.id];
    }
    assert regs[..|c.names|] == regs;
  }

  /** `build_id_lookup_map`, the nested loops. */
  method BuildIdLookupMap(chars: seq<Character>) returns (m: map<string, int>)
    ensures m == IdMap(chars)
  {
    m := map[];
    for i := 0 to |chars|
      invariant m == MapFrom(map[], Registrations(chars[..i]))
    {
      var c := chars[i];
      RegistrationsStep(chars, i);
      MapFromAppend(m, NameRegs(c), AltRegs(c.otherVersions));
      MapFromAppend(map[], Registrations(chars[..i]), NameRegs(c) + AltRegs(c.otherVersions));
      m := RegisterNames(m, c);
      m := RegisterAlts(m, c.otherVersions);
    }
    assert chars[..|chars|] == chars;
  }

  /** The inner loop over a character's alternate versions. */
  method RegisterAlts(m: map<string, int>, alts: seq<Character>) returns (m': map<string, int>)
    ensures m' == MapFrom(m, AltRegs(alts))
  {
    m' := m;
    for k := 0 to |alts|
      invariant m' == MapFrom(m, AltRegs(alts[..k]))
    {
      assert alts[..k + 1][..k] == alts[..k];
      MapFromAppend(m, AltRegs(alts[..k]), NameRegs(alts[k]));
      m' := RegisterNames(m', alts[k]);
    }
    assert alts[..|alts|] == alts;
  }

  lemma RegistrationsStep(chars: seq<Character>, i: nat)
    requires i < |chars|
    ensures Registrations(chars[..i + 1])
            == Registrations(chars[..i]) + (NameRegs(chars[i]) + AltRegs(chars[i].otherVersions))
  {
    assert chars[..i + 1][..i] == chars[..i];
  }

  /** Registering a list of characters and then one more character is registering the longer
      list: the map of `characters + [c]` is the old map updated with `c`'s names. */
  lemma IdMapAppend(chars: seq<Character>, c: Character)
    ensures IdMap(chars + [c]) == MapFrom(IdMap(chars), NameRegs(c) + AltRegs(c.otherVersions))
  {
    assert (chars + [c])[..|chars|] == chars;
    MapFromAppend(map[], Registrations(chars), NameRegs(c) + AltRegs(c.otherVersions));
  }

  /** A new entry made by `character_info` registers just its one name. */
  lemma IdMapAppendInfo(chars: seq<Character>, id: int, name: string)
    ensures IdMap(chars + [CharacterInfo(id, name)]) == IdMap(chars)[name := id]
  {
    var c := CharacterInfo(id, name);
    IdMapAppend(chars, c);
    InfoRegs(id, name);
    MapFromSingle(IdMap(chars), (name, id));
  }

  lemma InfoRegs(id: int, name: string)
    ensures NameRegs(CharacterInfo(id, name)) + AltRegs(CharacterInfo(id, name).otherVersions) == [(name, id)]
  {
    var r := NameRegs(CharacterInfo(id, name));
    assert |r| == 1 && r[0] == (name, id);
    assert AltRegs([]) == [];
    assert r + [] == r;
  }

  lemma MapFromSingle(m: map<string, int>, reg: Registration)
    ensures MapFrom(m, [reg]) == m[reg.0 := reg.1]
  {
    assert [reg][..0] == [];
  }

  // ---------------------------------------------------------------------------------------------
  // get_character_id and get_character_name

  /** The entry or one of its alternates carries the name. */
  predicate Knows(c: Character, name: string) {
    name in c.names || exists a :: a in c.otherVersions && name in a.names
  }

  /** The index of the first alternate carrying the name. */
  function AltWithName(alts: seq<Character>, name: string): (r: Option<nat>)
    ensures r.Some? ==> r.value < |alts| && name in alts[r.value].names
    ensures r.Some? ==> forall j :: 0 <= j < r.value ==> name !in alts[j].names
    ensures r.None? ==> forall j :: 0 <= j < |alts| ==> name !in alts[j].names
  {
    if alts == [] then None
    else if name in alts[0].names then Some(0)
    else match AltWithName(alts[1..], name)
      case None => None
      case Some(j) => Some(j + 1)
  }

  /** The id an entry gives a name it knows: its own if the name is a main name, else that of its
      first alternate with the name. */
  function IdIn(c: Character, name: string): (r: int)
    requires Knows(c, name)
  {
    if name in c.names then c.id
    else
      var j := AltWithName(c.otherVersions, name);
      assert j.Some?;
      c.otherVersions[j.value].id
  }

  /** The index of the first character that knows the name. */
  function FirstKnowing(chars: seq<Character>, name: string): (r: Option<nat>)
    ensures r.Some? ==> r.value < |chars| && Knows(chars[r.value], name)
    ensures r.Some? ==> forall j :: 0 <= j < r.value ==> !Knows(chars[j], name)
    ensures r.None? ==> forall j :: 0 <= j < |chars| ==> !Knows(chars[j], name)
  {
    if chars == [] then None
    else if Knows(chars[0], name) then Some(0)
    else match FirstKnowing(chars[1..], name)
      case None => None
      case Some(j) => Some(j + 1)
  }

  /** `get_character_id(name)`: the characters are searched in order, each one's main names
      first and then its alternates', and the first hit's id is returned; None if no entry
      knows the name. */
  method GetCharacterId(chars: seq<Character>, name: string) returns (r: Option<int>)
    ensures r == (match FirstKnowing(chars, name)
                  case None => None
                  case Some(i) => Some(IdIn(chars[i], name)))
  {
    for i := 0 to |chars|
      invariant forall j :: 0 <= j < i ==> !Knows(chars[j], name)
    {
      var c := chars[i];
      if name in c.names {
        return Some(c.id);
      }
      for k := 0 to |c.otherVersions|
        invariant forall j :: 0 <= j < k ==> name !in c.otherVersions[j].names
      {
        if name in c.otherVersions[k].names {
          assert AltWithName(c.otherVersions, name) == Some(k);
          return Some(c.otherVersions[k].id);
        }
      }
    }
    return None;
  }

  /** A name is found exactly when some registration made it a key of the lookup map. */
  lemma {:induction false} KnownIffRegistered(chars: seq<Character>, name: string)
    ensures FirstKnowing(chars, name).Some? <==> name in IdMap(chars)
  {
    MapFromLookup(map[], Registrations(chars), name);
    if FirstKnowing(chars, name).Some? {
      var i := FirstKnowing(chars, name).value;
      var k := RegistrationOf(chars, i, name);
      LastRegSome(Registrations(chars), k, name);
    } else if LastReg(Registrations(chars), name).Some? {
      var k := LastRegSpec(Registrations(chars), name);
      var i := RegisteredBy(chars, k);
    }
  }

  lemma LastRegSome(regs: seq<Registration>, k: int, name: string)
    requires 0 <= k < |regs| && regs[k].0 == name
    ensures LastReg(regs, name).Some?
  {
  }

  /** A character that knows a name has a registration of it. */
  lemma {:induction false} RegistrationOf(chars: seq<Character>, i: int, name: string) returns (k: int)
    requires 0 <= i < |chars| && Knows(chars[i], name)
    ensures 0 <= k < |Registrations(chars)| && Registrations(chars)[k].0 == name
  {
    var n := |chars| - 1;
    var c := chars[n];
    var prefix := Registrations(chars[..n]);
    if i < n {
      k := RegistrationOf(chars[..n], i, name);
    } else if name in c.names {
      var j :| 0 <= j < |c.names| && c.names[j] == name;
      k := |prefix| + j;
    } else {
      var a :| a in c.otherVersions && name in a.names;
      var j :| 0 <= j < |c.otherVersions| && c.otherVersions[j] == a;
      var q := AltRegIndex(c.otherVersions, j, name);
      k := |prefix| + |NameRegs(c)| + q;
    }
  }

  lemma {:induction false} AltRegIndex(alts: seq<Character>, j: int, name: string) returns (q: int)
    requires 0 <= j < |alts| && name in alts[j].names
    ensures 0 <= q < |AltRegs(alts)| && AltRegs(alts)[q].0 == name
  {
    var n := |alts| - 1;
    if j < n {
      q := AltRegIndex(alts[..n], j, name);
    } else {
      var p :| 0 <= p < |alts[n].names| && alts[n].names[p] == name;
      q := |AltRegs(alts[..n])| + p;
    }
  }

  /** Every registration belongs to a character that knows the name. */
  lemma {:induction false} RegisteredBy(chars: seq<Character>, k: int) returns (i: int)
    requires 0 <= k < |Registrations(chars)|
    ensures 0 <= i < |chars| && Knows(chars[i], Registrations(chars)[k].0)
  {
    var n := |chars| - 1;
    var c := chars[n];
    var prefix := Registrations(chars[..n]);
    var name := Registrations(chars)[k].0;
    if k < |prefix| {
      i := RegisteredBy(chars[..n], k);
    } else if k < |prefix| + |NameRegs(c)| {
      assert name == c.names[k - |prefix|];
      i := n;
    } else {
      var j := AltRegOwner(c.otherVersions, k - |prefix| - |NameRegs(c)|);
      i := n;
    }
  }

  lemma {:induction false} AltRegOwner(alts: seq<Character>, q: int) returns (j: int)
    requires 0 <= q < |AltRegs(alts)|
    ensures 0 <= j < |alts| && AltRegs(alts)[q].0 in alts[j].names
  {
    var n := |alts| - 1;
    if q < |AltRegs(alts[..n])| {
      j := AltRegOwner(alts[..n], q);
    } else {
      j := n;
      assert AltRegs(alts)[q] == NameRegs(alts[n])[q - |AltRegs(alts[..n])|];
    }
  }

  /** The first entry or alternate, in search order, whose id matches. */
  function AltWithId(alts: seq<Character>, id: int): (r: Option<nat>)
    ensures r.Some? ==> r.value < |alts| && alts[r.value].id == id
    ensures r.Some? ==> forall j :: 0 <= j < r.value ==> alts[j].id != id
    ensures r.None? ==> forall j :: 0 <= j < |alts| ==> alts[j].id != id
  {
    if alts == [] then None
    else if alts[0].id == id then Some(0)
    else match AltWithId(alts[1..], id)
      case None => None
      case Some(j) => Some(j + 1)
  }

  /** `names[0]` of an entry; IndexError for an entry without names. */
  function FirstName(c: Character): (r: Result<Option<string>, Error>) {
    if c.names == [] then Failure(IndexError) else Success(Some(c.names[0]))
  }

  /** `get_character_name(id)`, as a reference: the first name of the first entry in search order
      (each character, then its alternates) whose id matches; None if none does. */
  function CharacterName(chars: seq<Character>, id: int): (r: Result<Option<string>, Error>) {
    if chars == [] then Success(None)
    else if chars[0].id == id then FirstName(chars[0])
    else match AltWithId(chars[0].otherVersions, id)
      case Some(j) => FirstName(chars[0].otherVersions[j])
      case None => CharacterName(chars[1..], id)
  }

  /** `get_character_name(id)`, the search loop. */
  method GetCharacterName(chars: seq<Character>, id: int) returns (r: Result<Option<string>, Error>)
    ensures r == CharacterName(chars, id)
  {
    for i := 0 to |chars|
      invariant CharacterName(chars, id) == CharacterName(chars[i..], id)
    {
      var c := chars[i];
      assert chars[i..][1..] == chars[i + 1..];
      if c.id == id {
        return FirstName(c);
      }
      for k := 0 to |c.otherVersions|
        invariant forall j :: 0 <= j < k ==> c.otherVersions[j].id != id
      {
        if c.otherVersions[k].id == id {
          assert AltWithId(c.otherVersions, id) == Some(k);
          return FirstName(c.otherVersions[k]);
        }
      }
    }
    return Success(None);
  }

  /** The name found for an id belongs to an entry or alternate with that id, and is that
      entry's first name; no entry has the id when the search finds nothing. */
  lemma {:induction false} CharacterNameSpec(chars: seq<Character>, id: int)
    ensures CharacterName(chars, id) == Success(None) ==>
              forall i :: 0 <= i < |chars| ==> chars[i].id != id && forall j :: 0 <= j < |chars[i].otherVersions| ==> chars[i].otherVersions[j].id != id
    ensures CharacterName(chars, id).Success? && CharacterName(chars, id).value.Some? ==>
              exists c :: (c in chars || exists i :: 0 <= i < |chars| && c in chars[i].otherVersions)
                          && c.id == id && c.names != [] && c.names[0] == CharacterName(chars, id).value.value
  {
    if chars != [] {
      CharacterNameSpec(chars[1..], id);
      if chars[0].id != id {
        match AltWithId(chars[0].otherVersions, id)
        case Some(j) =>
          assert chars[0].otherVersions[j] in chars[0].otherVersions;
        case None =>
          if CharacterName(chars, id).Success? && CharacterName(chars, id).value.Some? {
            var c :| (c in chars[1..] || exists i :: 0 <= i < |chars[1..]| && c in chars[1..][i].otherVersions)
                     && c.id == id && c.names != [] && c.names[0] == CharacterName(chars, id).value.value;
            if c !in chars[1..] {
              var i :| 0 <= i < |chars[1..]| && c in chars[1..][i].otherVersions;
              assert c in chars[i + 1].otherVersions;
            }
          }
          if CharacterName(chars, id) == Success(None) {
            forall i | 0 <= i < |chars|
              ensures chars[i].id != id && forall j :: 0 <= j < |chars[i].otherVersions| ==> chars[i].otherVersions[j].id != id
            {
              if i > 0 {
                assert chars[i] == chars[1..][i - 1];
              }
            }
          }
      }
    }
  }

  /** The character or one of its alternates has the id. */
  predicate HasId(c: Character, id: int) {
    c.id == id || AltWithId(c.otherVersions, id).Some?
  }

  /** The entry of `c` the search stops at for the id: `c` itself, else its first alternate with it. */
  function EntryWithId(c: Character, id: int): (e: Character)
    requires HasId(c, id)
    ensures e.id == id
    ensures e == c || e in c.otherVersions
  {
    if c.id == id then c else c.otherVersions[AltWithId(c.otherVersions, id).value]
  }

  /** Nothing is found exactly when no character and no alternate has the id. */
  lemma {:induction false} CharacterNameNone(chars: seq<Character>, id: int)
    ensures CharacterName(chars, id) == Success(None) <==> forall i :: 0 <= i < |chars| ==> !HasId(chars[i], id)
  {
    if chars != [] {
      CharacterNameNone(chars[1..], id);
      if !HasId(chars[0], id) {
        forall i | 0 <= i < |chars| && i > 0 ensures chars[i] == chars[1..][i - 1] { }
      }
    }
  }

  /** When the i-th character is the first one holding the id (on itself or an alternate), the
      result is `names[0]` of the entry the search stops at there, and IndexError exactly when
      that entry has no names. */
  lemma {:induction false} CharacterNameFirstMatch(chars: seq<Character>, id: int, i: nat)
    requires i < |chars| && HasId(chars[i], id)
    requires forall k :: 0 <= k < i ==> !HasId(chars[k], id)
    ensures CharacterName(chars, id) == FirstName(EntryWithId(chars[i], id))
    ensures CharacterName(chars, id) == Failure(IndexError) <==> EntryWithId(chars[i], id).names == []
    ensures EntryWithId(chars[i], id).names != [] ==>
              CharacterName(chars, id) == Success(Some(EntryWithId(chars[i], id).names[0]))
  {
    if i > 0 {
      assert !HasId(chars[0], id);
      forall k | 0 <= k < i - 1 ensures !HasId(chars[1..][k], id) {
        assert chars[1..][k] == chars[k + 1];
      }
      assert chars[1..][i - 1] == chars[i];
      CharacterNameFirstMatch(chars[1..], id, i - 1);
    }
  }

  // ---------------------------------------------------------------------------------------------
  // get_all_character_ids

  /** The configuration switches `INCLUDE_ALL_WRITERS`, `INCLUDE_ALTER_EGOS`, `INCLUDE_FAMILIARS`
      and `INCLUDE_NPCS`. */
  datatype Include = Include(allWriters: bool, alterEgos: bool, familiars: bool, npcs: bool)

  /** How many enabled switches have their tag on the alternate. */
  function EnabledTags(alt: Character, inc: Include): (r: nat) {
    (if inc.allWriters && "has_other_writers" in alt.tags then 1 else 0)
    + (if inc.alterEgos && "alter_ego" in alt.tags then 1 else 0)
    + (if inc.familiars && "familiar" in alt.tags then 1 else 0)
    + (if inc.npcs && "npc" in alt.tags then 1 else 0)
  }

  /** `[id]` when the test holds, nothing otherwise. */
  function Once(b: bool, id: int): (r: seq<int>)
    ensures |r| == (if b then 1 else 0)
    ensures forall i :: 0 <= i < |r| ==> r[i] == id
  {
    if b then [id] else []
  }

  /** The alternate's id, once per enabled switch whose tag it carries. */
  function TaggedId(alt: Character, inc: Include): (r: seq<int>)
    ensures |r| == EnabledTags(alt, inc)
    ensures forall i :: 0 <= i < |r| ==> r[i] == alt.id
  {
    var a := Once(inc.allWriters && "has_other_writers" in alt.tags, alt.id);
    var b := Once(inc.alterEgos && "alter_ego" in alt.tags, alt.id);
    var c := Once(inc.familiars && "familiar" in alt.tags, alt.id);
    var d := Once(inc.npcs && "npc" in alt.tags, alt.id);
    AllIdAppend(a, b, alt.id);
    AllIdAppend(a + b, c, alt.id);
    AllIdAppend(a + b + c, d, alt.id);
    a + b + c + d
  }

  lemma AllIdAppend(a: seq<int>, b: seq<int>, id: int)
    requires forall i :: 0 <= i < |a| ==> a[i] == id
    requires forall i :: 0 <= i < |b| ==> b[i] == id
    ensures forall i :: 0 <= i < |a + b| ==> (a + b)[i] == id
  {
  }

  function TaggedIds(alts: seq<Character>, inc: Include): (r: seq<int>) {
    if alts == [] then [] else TaggedIds(alts[..|alts| - 1], inc) + TaggedId(alts[|alts| - 1], inc)
  }

  /** The ids of the alternates that carry the name themselves. */
  function AltNameIds(alts: seq<Character>, name: string): (r: seq<int>) {
    if alts == [] then []
    else AltNameIds(alts[..|alts| - 1], name) + (if name in alts[|alts| - 1].names then [alts[|alts| - 1].id] else [])
  }

  /** What one character adds: if the name is a main name, its id and the ids of its tagged
      alternates; in any case, the ids of its alternates carrying the name. */
  function CharacterIdsFor(c: Character, name: string, inc: Include): (r: seq<int>) {
    (if name in c.names then [c.id] + TaggedIds(c.otherVersions, inc) else [])
    + AltNameIds(c.otherVersions, name)
  }

  function AllCharacterIds(chars: seq<Character>, name: string, inc: Include): (r: seq<int>) {
    if chars == [] then []
    else AllCharacterIds(chars[..|chars| - 1], name, inc) + CharacterIdsFor(chars[|chars| - 1], name, inc)
  }

  /** The four switch tests on one alternate, in the source's order. */
  method AddTaggedId(ids: seq<int>, alt: Character, inc: Include) returns (ids': seq<int>)
    ensures ids' == ids + TaggedId(alt, inc)
  {
    var w, e, f, n := inc.allWriters && "has_other_writers" in alt.tags, inc.alterEgos && "alter_ego" in alt.tags,
                      inc.familiars && "familiar" in alt.tags, inc.npcs && "npc" in alt.tags;
    ghost var a, b, c, d := Once(w, alt.id), Once(e, alt.id), Once(f, alt.id), Once(n, alt.id);
    assert TaggedId(alt, inc) == a + b + c + d;
    ids' := ids;
    if w { ids' := ids' + [alt.id]; }
    assert ids' == ids + a;
    if e { ids' := ids' + [alt.id]; }
    assert ids' == ids + a + b;
    if f { ids' := ids' + [alt.id]; }
    assert ids' == ids + a + b + c;
    if n { ids' := ids' + [alt.id]; }
    assert ids' == ids + a + b + c + d;
    AppendAssoc4(ids, a, b, c, d);
  }

  lemma AppendAssoc4(s: seq<int>, a: seq<int>, b: seq<int>, c: seq<int>, d: seq<int>)
    ensures s + a + b + c + d == s + (a + b + c + d)
  {
  }

  /** The loop over the alternates of a main-name hit: each alternate's id once per enabled
      switch whose tag it carries. */
  method AddTaggedIds(ids: seq<int>, alts: seq<Character>, inc: Include) returns (ids': seq<int>)
    ensures ids' == ids + TaggedIds(alts, inc)
  {
    ids' := ids;
    for k := 0 to |alts|
      invariant ids' == ids + TaggedIds(alts[..k], inc)
    {
      TaggedIdsStep(ids, alts, k, inc);
      ids' := AddTaggedId(ids', alts[k], inc);
    }
    assert alts[..|alts|] == alts;
  }

  lemma TaggedIdsStep(ids: seq<int>, alts: seq<Character>, k: nat, inc: Include)
    requires k < |alts|
    ensures ids + TaggedIds(alts[..k + 1], inc) == ids + TaggedIds(alts[..k], inc) + TaggedId(alts[k], inc)
  {
    assert alts[..k + 1][..k] == alts[..k];
  }

  /** The loop over the alternates looking for the name itself. */
  method AddAltNameIds(ids: seq<int>, alts: seq<Character>, name: string) returns (ids': seq<int>)
    ensures ids' == ids + AltNameIds(alts, name)
  {
    ids' := ids;
    for k := 0 to |alts|
      invariant ids' == ids + AltNameIds(alts[..k], name)
    {
      assert alts[..k + 1][..k] == alts[..k];
      if name in alts[k].names {
        ids' := ids' + [alts[k].id];
      }
    }
    assert alts[..|alts|] == alts;
  }

  /** `get_all_character_ids(name)`. */
  method GetAllCharacterIds(chars: seq<Character>, name: string, inc: Include) returns (ids: seq<int>)
    ensures ids == AllCharacterIds(chars, name, inc)
  {
    ids := [];
    for i := 0 to |chars|
      invariant ids == AllCharacterIds(chars[..i], name, inc)
    {
      var c := chars[i];
      AllCharacterIdsStep(chars, i, name, inc);
      ghost var start := ids;
      if name in c.names {
        ids := AddTaggedIds(ids + [c.id], c.otherVersions, inc);
        AppendAssoc(start, [c.id], TaggedIds(c.otherVersions, inc));
      }
      ids := AddAltNameIds(ids, c.otherVersions, name);
      AppendAssoc(start, if name in c.names then [c.id] + TaggedIds(c.otherVersions, inc) else [],
                  AltNameIds(c.otherVersions, name));
    }
    assert chars[..|chars|] == chars;
  }

  lemma AllCharacterIdsStep(chars: seq<Character>, i: nat, name: string, inc: Include)
    requires i < |chars|
    ensures AllCharacterIds(chars[..i + 1], name, inc) == AllCharacterIds(chars[..i], name, inc) + CharacterIdsFor(chars[i], name, inc)
  {
    assert chars[..i + 1][..i] == chars[..i];
  }

  lemma AppendAssoc(a: seq<int>, b: seq<int>, c: seq<int>)
    ensures a + b + c == a + (b + c)
  {
  }

  /** An id is in the result exactly when it is the id of a character with the name as a main
      name, the id of a tagged alternate (for an enabled switch) of such a character, or the id
      of an alternate carrying the name; tagged alternates appear once per enabled switch. */
  lemma {:induction false} AllCharacterIdsMembers(chars: seq<Character>, name: string, inc: Include, x: int)
    ensures x in AllCharacterIds(chars, name, inc) <==>
              exists i :: 0 <= i < |chars| && x in CharacterIdsFor(chars[i], name, inc)
  {
    if chars != [] {
      var n := |chars| - 1;
      var init := chars[..n];
      AllCharacterIdsMembers(init, name, inc, x);
      assert AllCharacterIds(chars, name, inc) == AllCharacterIds(init, name, inc) + CharacterIdsFor(chars[n], name, inc);
      assert forall i :: 0 <= i < n ==> init[i] == chars[i];
      if exists i :: 0 <= i < |chars| && x in CharacterIdsFor(chars[i], name, inc) {
        var i :| 0 <= i < |chars| && x in CharacterIdsFor(chars[i], name, inc);
        if i < n {
          assert x in CharacterIdsFor(init[i], name, inc);
        }
      }
    }
  }

  /** What one character contributes, in words. */
  lemma CharacterIdsForMembers(c: Character, name: string, inc: Include, x: int)
    ensures x in CharacterIdsFor(c, name, inc) <==>
              (name in c.names && x == c.id)
              || (name in c.names && exists j :: 0 <= j < |c.otherVersions| && c.otherVersions[j].id == x
                                                && EnabledTags(c.otherVersions[j], inc) > 0)
              || (exists j :: 0 <= j < |c.otherVersions| && c.otherVersions[j].id == x
                             && name in c.otherVersions[j].names)
  {
    TaggedIdsMembers(c.otherVersions, inc, x);
    AltNameIdsMembers(c.otherVersions, name, x);
  }

  lemma {:induction false} TaggedIdsMembers(alts: seq<Character>, inc: Include, x: int)
    ensures x in TaggedIds(alts, inc) <==>
              exists j :: 0 <= j < |alts| && alts[j].id == x && EnabledTags(alts[j], inc) > 0
  {
    if alts != [] {
      var n := |alts| - 1;
      var init := alts[..n];
      TaggedIdsMembers(init, inc, x);
      TaggedIdMembers(alts[n], inc, x);
      assert TaggedIds(alts, inc) == TaggedIds(init, inc) + TaggedId(alts[n], inc);
      assert forall j :: 0 <= j < n ==> init[j] == alts[j];
    }
  }

  lemma TaggedIdMembers(alt: Character, inc: Include, x: int)
    ensures x in TaggedId(alt, inc) <==> x == alt.id && EnabledTags(alt, inc) > 0
  {
    var t := TaggedId(alt, inc);
    if |t| > 0 {
      assert t[0] == alt.id;
    }
  }

  lemma {:induction false} AltNameIdsMembers(alts: seq<Character>, name: string, x: int)
    ensures x in AltNameIds(alts, name) <==>
              exists j :: 0 <= j < |alts| && alts[j].id == x && name in alts[j].names
  {
    if alts != [] {
      var n := |alts| - 1;
      AltNameIdsMembers(alts[..n], name, x);
      if exists j :: 0 <= j < n && alts[..n][j].id == x && name in alts[..n][j].names {
        var j :| 0 <= j < n && alts[..n][j].id == x && name in alts[..n][j].names;
        assert alts[j] == alts[..n][j];
      }
      if exists j :: 0 <= j < |alts| && alts[j].id == x && name in alts[j].names {
        var j :| 0 <= j < |alts| && alts[j].id == x && name in alts[j].names;
        if j < n {
          assert alts[..n][j] == alts[j];
        }
      }
    }
  }

  /** With every switch off, the main-name hits contribute only their own ids. */
  lemma {:induction false} NoSwitchesNoTagged(alts: seq<Character>)
    ensures TaggedIds(alts, Include(false, false, false, false)) == []
  {
    if alts != [] {
      NoSwitchesNoTagged(alts[..|alts| - 1]);
    }
  }

  // ---------------------------------------------------------------------------------------------
  // assign_ids_in_file

  /** The message with its author's id replaced by the decimal string of a character id. */
  function WithAuthorId(m: Message, id: int): (r: Message)
    ensures r.id == m.id && r.msgType == m.msgType && r.content == m.content
    ensures r.author.name == m.author.name && r.author.isBot == m.author.isBot
    ensures r.author.id == IntToString(id)
  {
    m.(author := m.author.(id := IntToString(id)))
  }

  /** The id `assign_ids_in_file` gives the next new name: one more than the number of names in
      the lookup map. */
  function NextId(lookup: map<string, int>): (r: int) {
    |lookup| + 1
  }

  /** The registry after one pass over a file's messages, and the rewritten messages. */
  datatype Assigned = Assigned(characters: seq<Character>, lookup: map<string, int>, messages: seq<Message>)

  /** One message: a bot whose name is not registered gets a new entry under `NextId`; every bot
      message then carries the id of its name; other messages are left alone. */
  function AssignOne(a: Assigned, m: Message): (r: Assigned) {
    if !m.author.isBot then Assigned(a.characters, a.lookup, a.messages + [m])
    else
      var name := m.author.name;
      if name in a.lookup then Assigned(a.characters, a.lookup, a.messages + [WithAuthorId(m, a.lookup[name])])
      else
        var id := NextId(a.lookup);
        Assigned(a.characters + [CharacterInfo(id, name)], a.lookup[name := id], a.messages + [WithAuthorId(m, id)])
  }

  /** The loop of `assign_ids_in_file` over the messages of one file. */
  function AssignAll(chars: seq<Character>, lookup: map<string, int>, msgs: seq<Message>): (r: Assigned) {
    if msgs == [] then Assigned(chars, lookup, [])
    else AssignOne(AssignAll(chars, lookup, msgs[..|msgs| - 1]), msgs[|msgs| - 1])
  }

  /** The names of the bot authors of the messages. */
  function BotNames(msgs: seq<Message>): (r: set<string>) {
    if msgs == [] then {}
    else
      var m := msgs[|msgs| - 1];
      BotNames(msgs[..|msgs| - 1]) + (if m.author.isBot then {m.author.name} else {})
  }

  lemma {:induction false} BotNamesMembers(msgs: seq<Message>, x: string)
    ensures x in BotNames(msgs) <==> exists i :: 0 <= i < |msgs| && msgs[i].author.isBot && msgs[i].author.name == x
  {
    if msgs != [] {
      var n := |msgs| - 1;
      BotNamesMembers(msgs[..n], x);
      if exists i :: 0 <= i < n && msgs[..n][i].author.isBot && msgs[..n][i].author.name == x {
        var i :| 0 <= i < n && msgs[..n][i].author.isBot && msgs[..n][i].author.name == x;
        assert msgs[i] == msgs[..n][i];
      }
      if exists i :: 0 <= i < |msgs| && msgs[i].author.isBot && msgs[i].author.name == x {
        var i :| 0 <= i < |msgs| && msgs[i].author.isBot && msgs[i].author.name == x;
        if i < n {
          assert msgs[..n][i] == msgs[i];
        }
      }
    }
  }

  /** The pass keeps the messages, appends one entry per new name, and never changes the id of a
      name that was already registered. */
  lemma {:induction false} AssignAllShape(chars: seq<Character>, lookup: map<string, int>, msgs: seq<Message>)
    ensures var a := AssignAll(chars, lookup, msgs);
            && |a.messages| == |msgs|
            && |a.characters| >= |chars| && a.characters[..|chars|] == chars
            && |a.lookup| == |lookup| + (|a.characters| - |chars|)
            && (forall k :: k in lookup ==> k in a.lookup && a.lookup[k] == lookup[k])
  {
    if msgs != [] {
      var n := |msgs| - 1;
      AssignAllShape(chars, lookup, msgs[..n]);
      var b := AssignAll(chars, lookup, msgs[..n]);
      var a := AssignAll(chars, lookup, msgs);
      if msgs[n].author.isBot && msgs[n].author.name !in b.lookup {
        assert a.characters[..|chars|] == b.characters[..|chars|];
      }
    }
  }

  /** What one message does to the registry. */
  lemma AssignOneFacts(b: Assigned, m: Message)
    ensures var a := AssignOne(b, m);
            && a.lookup.Keys == b.lookup.Keys + (if m.author.isBot then {m.author.name} else {})
            && (forall k :: k in b.lookup ==> k in a.lookup && a.lookup[k] == b.lookup[k])
            && (m.author.isBot ==> m.author.name in a.lookup)
            && a.messages == b.messages + [if m.author.isBot then WithAuthorId(m, a.lookup[m.author.name]) else m]
  {
  }

  /** Exactly the bot names are added to the lookup map. */
  lemma {:induction false} AssignAllKeys(chars: seq<Character>, lookup: map<string, int>, msgs: seq<Message>)
    ensures AssignAll(chars, lookup, msgs).lookup.Keys == lookup.Keys + BotNames(msgs)
  {
    if msgs != [] {
      var n := |msgs| - 1;
      AssignAllKeys(chars, lookup, msgs[..n]);
      AssignOneFacts(AssignAll(chars, lookup, msgs[..n]), msgs[n]);
    }
  }

  /** Every bot message carries the final id of its name. */
  lemma {:induction false} AssignAllBotMessages(chars: seq<Character>, lookup: map<string, int>, msgs: seq<Message>)
    ensures var a := AssignAll(chars, lookup, msgs);
            && |a.messages| == |msgs|
            && forall i :: 0 <= i < |msgs| && msgs[i].author.isBot ==>
                 msgs[i].author.name in a.lookup && a.messages[i] == WithAuthorId(msgs[i], a.lookup[msgs[i].author.name])
  {
    if msgs != [] {
      var n := |msgs| - 1;
      var init := msgs[..n];
      AssignAllBotMessages(chars, lookup, init);
      var b := AssignAll(chars, lookup, init);
      var a := AssignOne(b, msgs[n]);
      AssignOneFacts(b, msgs[n]);
      forall i | 0 <= i < n && msgs[i].author.isBot
        ensures msgs[i].author.name in a.lookup && a.messages[i] == WithAuthorId(msgs[i], a.lookup[msgs[i].author.name])
      {
        assert msgs[i] == init[i];
        assert a.messages[i] == b.messages[i];
      }
    }
  }

  /** Every message by a non-bot author is left as it was. */
  lemma {:induction false} AssignAllOtherMessages(chars: seq<Character>, lookup: map<string, int>, msgs: seq<Message>)
    ensures var a := AssignAll(chars, lookup, msgs);
            && |a.messages| == |msgs|
            && forall i :: 0 <= i < |msgs| && !msgs[i].author.isBot ==> a.messages[i] == msgs[i]
  {
    if msgs != [] {
      var n := |msgs| - 1;
      var init := msgs[..n];
      AssignAllOtherMessages(chars, lookup, init);
      AssignAllStep(chars, lookup, msgs);
      OtherMessagesStep(AssignAll(chars, lookup, init), init, msgs[n]);
    }
  }

  /** The loop of AssignAll, one message at a time. */
  lemma AssignAllStep(chars: seq<Character>, lookup: map<string, int>, msgs: seq<Message>)
    requires msgs != []
    ensures msgs == msgs[..|msgs| - 1] + [msgs[|msgs| - 1]]
    ensures AssignAll(chars, lookup, msgs) == AssignOne(AssignAll(chars, lookup, msgs[..|msgs| - 1]), msgs[|msgs| - 1])
  {
  }

  lemma OtherMessagesStep(b: Assigned, init: seq<Message>, m: Message)
    requires |b.messages| == |init|
    requires forall i :: 0 <= i < |init| && !init[i].author.isBot ==> b.messages[i] == init[i]
    ensures var a, ms := AssignOne(b, m), init + [m];
            && |a.messages| == |ms|
            && forall i :: 0 <= i < |ms| && !ms[i].author.isBot ==> a.messages[i] == ms[i]
  {
    var a, ms := AssignOne(b, m), init + [m];
    AssignOneFacts(b, m);
    forall i | 0 <= i < |ms| && !ms[i].author.isBot
      ensures a.messages[i] == ms[i]
    {
      if i < |init| {
        assert ms[i] == init[i];
        assert a.messages[i] == b.messages[i];
      }
    }
  }

  /** The pass keeps the lookup map the map the characters define: the new entries register
      exactly the new names, under the ids the map gives them. */
  lemma {:induction false} AssignAllKeepsMap(chars: seq<Character>, lookup: map<string, int>, msgs: seq<Message>)
    requires lookup == IdMap(chars)
    ensures AssignAll(chars, lookup, msgs).lookup == IdMap(AssignAll(chars, lookup, msgs).characters)
  {
    if msgs != [] {
      var n := |msgs| - 1;
      AssignAllKeepsMap(chars, lookup, msgs[..n]);
      var b := AssignAll(chars, lookup, msgs[..n]);
      var m := msgs[n];
      if m.author.isBot && m.author.name !in b.lookup {
        IdMapAppendInfo(b.characters, NextId(b.lookup), m.author.name);
      }
    }
  }

  /** The ids handed out by one pass are |lookup| + 1, |lookup| + 2, ... in order of first
      appearance, one per appended entry. */
  lemma {:induction false} AssignAllNewIds(chars: seq<Character>, lookup: map<string, int>, msgs: seq<Message>)
    ensures var a := AssignAll(chars, lookup, msgs);
            forall j :: |chars| <= j < |a.characters| ==>
              && a.characters[j].id == |lookup| + (j - |chars|) + 1
              && |a.characters[j].names| == 1
              && a.characters[j].names[0] !in lookup
              && a.characters[j].names[0] in a.lookup
              && a.lookup[a.characters[j].names[0]] == a.characters[j].id
              && a.characters[j].otherVersions == []
  {
    if msgs != [] {
      var n := |msgs| - 1;
      AssignAllNewIds(chars, lookup, msgs[..n]);
      AssignAllShape(chars, lookup, msgs[..n]);
      var b := AssignAll(chars, lookup, msgs[..n]);
      var a := AssignAll(chars, lookup, msgs);
      var m := msgs[n];
      if m.author.isBot && m.author.name !in b.lookup {
        forall j | |chars| <= j < |b.characters|
          ensures a.characters[j].names[0] != m.author.name
        {
        }
      }
    }
  }

  /** The state `assign_ids` carries from file to file: the loaded character list and the lookup
      map built from it, both updated as new bot names turn up. */
  class Registry {
    var characters: seq<Character>
    var lookup: map<string, int>

    /** The lookup map is the one the character list defines. */
    ghost predicate Valid()
      reads this
    {
      lookup == IdMap(characters)
    }

    /** The loaded character list, with its lookup map built by `build_id_lookup_map`. */
    constructor (chars: seq<Character>)
      ensures characters == chars && Valid()
    {
      characters := chars;
      lookup := map[];
      new;
      lookup := BuildIdLookupMap(chars);
    }

    /** `assign_ids_in_file` on one channel file: the rewritten file, and the registry with the
        new names registered. */
    method AssignIdsInFile(file: ChannelFile) returns (out: ChannelFile)
      requires Valid()
      modifies this
      ensures Valid()
      ensures var a := AssignAll(old(characters), old(lookup), file.messages);
              characters == a.characters && lookup == a.lookup && out == file.(messages := a.messages)
    {
      var msgs := file.messages;
      var done: seq<Message> := [];
      ghost var chars0 := characters;
      ghost var lookup0 := lookup;
      for i := 0 to |msgs|
        invariant AssignAll(chars0, lookup0, msgs[..i]) == Assigned(characters, lookup, done)
      {
        assert msgs[..i + 1][..i] == msgs[..i];
        var m := msgs[i];
        if m.author.isBot {
          var name := m.author.name;
          if name !in lookup {
            var newId := |lookup| + 1;
            characters := characters + [CharacterInfo(newId, name)];
            lookup := lookup[name := newId];
          }
          m := m.(author := m.author.(id := IntToString(lookup[name])));
        }
        done := done + [m];
      }
      assert msgs[..|msgs|] == msgs;
      AssignAllKeepsMap(chars0, lookup0, msgs);
      out := file.(messages := done);
    }
  }

  // ---------------------------------------------------------------------------------------------
  // The new id as written, and a fresh one

  /** The next id as written can be an id the map already gives another name: a character whose
      alternate has its own id 3 registers two names, so the next new bot is also given 3. */
  lemma NextIdCollides()
    ensures var alt := Character(3, ["Bee (older)"], [], [], []);
            var chars := [Character(1, ["Bee"], [], [], [alt])];
            var lookup := IdMap(chars);
            && lookup == map["Bee" := 1, "Bee (older)" := 3]
            && NextId(lookup) == 3
            && lookup["Bee (older)"] == NextId(lookup)
  {
    var alt := Character(3, ["Bee (older)"], [], [], []);
    var chars := [Character(1, ["Bee"], [], [], [alt])];
    var c := chars[0];
    assert chars[..0] == [];
    assert NameRegs(c) == [("Bee", 1)];
    assert [alt][..0] == [];
    assert AltRegs(c.otherVersions) == [("Bee (older)", 3)];
    var regs := [("Bee", 1), ("Bee (older)", 3)];
    assert Registrations(chars) == regs;
    assert regs[..1] == [("Bee", 1)];
    assert [("Bee", 1)][..0] == [];
    assert IdMap(chars) == map["Bee" := 1, "Bee (older)" := 3];
    assert map["Bee" := 1, "Bee (older)" := 3].Keys == {"Bee", "Bee (older)"};
  }

  /** The largest id in the map, 0 for an empty map. */
  ghost function MaxId(lookup: map<string, int>): (r: int)
    ensures forall k :: k in lookup ==> lookup[k] <= r
    ensures lookup == map[] ==> r == 0
    decreases |lookup|
  {
    if lookup == map[] then 0
    else
      var k :| k in lookup;
      var rest := lookup - {k};
      var m := MaxId(rest);
      assert forall j :: j in lookup && j != k ==> j in rest;
      if lookup[k] > m then lookup[k] else m
  }

  /** One more than every id in use: the id a new name evidently should get. */
  ghost function FreshId(lookup: map<string, int>): (r: int)
    ensures forall k :: k in lookup ==> lookup[k] < r
    ensures r >= 1
  {
    if MaxId(lookup) < 0 then 1 else MaxId(lookup) + 1
  }

  /** The pass as the module's description promises it, each bot with a unique id: a new name is
      registered under FreshId instead of `NextId`. */
  ghost function IntendedAssignOne(a: Assigned, m: Message): (r: Assigned) {
    if !m.author.isBot then Assigned(a.characters, a.lookup, a.messages + [m])
    else
      var name := m.author.name;
      if name in a.lookup then Assigned(a.characters, a.lookup, a.messages + [WithAuthorId(m, a.lookup[name])])
      else
        var id := FreshId(a.lookup);
        Assigned(a.characters + [CharacterInfo(id, name)], a.lookup[name := id], a.messages + [WithAuthorId(m, id)])
  }

  /** The intended pass over the messages of one file. */
  ghost function IntendedAssignAll(chars: seq<Character>, lookup: map<string, int>, msgs: seq<Message>): (r: Assigned) {
    if msgs == [] then Assigned(chars, lookup, [])
    else IntendedAssignOne(IntendedAssignAll(chars, lookup, msgs[..|msgs| - 1]), msgs[|msgs| - 1])
  }

  /** The intended pass keeps every registered name's id, registers every bot name, and gives each
      new name an id that no name in the old map has and that no other new name gets. */
  lemma {:induction false} IntendedAssignFresh(chars: seq<Character>, lookup: map<string, int>, msgs: seq<Message>)
    ensures var a := IntendedAssignAll(chars, lookup, msgs);
            && a.lookup.Keys == lookup.Keys + BotNames(msgs)
            && (forall k :: k in lookup ==> a.lookup[k] == lookup[k])
            && (forall k, j :: k in a.lookup && k !in lookup && j in lookup ==> a.lookup[k] != lookup[j])
            && (forall k, l :: k in a.lookup && l in a.lookup && k !in lookup && l !in lookup && k != l ==>
                  a.lookup[k] != a.lookup[l])
  {
    if msgs != [] {
      var n := |msgs| - 1;
      IntendedAssignFresh(chars, lookup, msgs[..n]);
      IntendedFreshStep(lookup, IntendedAssignAll(chars, lookup, msgs[..n]), msgs[n]);
    }
  }

  /** One message of the intended pass keeps the ids fresh. */
  lemma IntendedFreshStep(lookup: map<string, int>, b: Assigned, m: Message)
    requires forall k :: k in lookup ==> k in b.lookup && b.lookup[k] == lookup[k]
    requires forall k, j :: k in b.lookup && k !in lookup && j in lookup ==> b.lookup[k] != lookup[j]
    requires forall k, l :: k in b.lookup && l in b.lookup && k !in lookup && l !in lookup && k != l ==>
               b.lookup[k] != b.lookup[l]
    ensures var a := IntendedAssignOne(b, m);
            && a.lookup.Keys == b.lookup.Keys + (if m.author.isBot then {m.author.name} else {})
            && (forall k :: k in lookup ==> k in a.lookup && a.lookup[k] == lookup[k])
            && (forall k, j :: k in a.lookup && k !in lookup && j in lookup ==> a.lookup[k] != lookup[j])
            && (forall k, l :: k in a.lookup && l in a.lookup && k !in lookup && l !in lookup && k != l ==>
                  a.lookup[k] != a.lookup[l])
  {
    if m.author.isBot && m.author.name !in b.lookup {
      var f := FreshId(b.lookup);
      assert forall j :: j in lookup ==> lookup[j] == b.lookup[j] < f;
    }
  }
}
