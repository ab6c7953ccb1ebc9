/** The error kinds of the core's failure paths, and `unwrap`, which renders an exception with its
    chain of causes as one line of text. */
module Exceptions {
  import opened Strings

  /** The failure of each error path: the exception class the code names at that point (the
      status gates, the channel list parser and clean-up), or the Python built-in the core lets
      escape. The module `exceptions.py` defines none of the named classes; each path is given
      the kind its code names. */
  datatype Error =
    | AlreadyRunningError
    | DataNotReadyError
    | MergeError
    | AssignIdError
    | UpdateInfoError
    | GetChannelListError
    | CleanChannelListError
    | ValueError
    | KeyError
    | IndexError

  /** One link of a cause chain: the exception's class name and its message (`str(e)`). */
  datatype Exception = Exception(typeName: string, message: string)

  const CausedBy := " <- caused by <- "

  /** `f"{type(e).__name__}: {e}"`. */
  function Entry(e: Exception): (r: string)
    ensures |r| == |e.typeName| + 2 + |e.message|
    ensures r[..|e.typeName|] == e.typeName && r[|e.typeName|..|e.typeName| + 2] == ": "
  {
    e.typeName + ": " + e.message
  }

  /** The entries of a chain, outermost exception first. */
  function Entries(chain: seq<Exception>): (r: seq<string>)
    ensures |r| == |chain|
    ensures forall i :: 0 <= i < |chain| ==> r[i] == Entry(chain[i])
  {
    if chain == [] then [] else [Entry(chain[0])] + Entries(chain[1..])
  }

  /** `unwrap(exc)`: walk the chain from `exc` through each `__cause__` until there is none, and
      join the entries with " <- caused by <- ". The chain is the finite list of the exceptions
      visited, `chain[0]` being `exc` and `chain[i + 1]` the cause of `chain[i]`. */
  method Unwrap(chain: seq<Exception>) returns (r: string)
    ensures r == Join(Entries(chain), CausedBy)
  {
    var parts: seq<string> := [];
    var i := 0;
    while i < |chain|
      invariant 0 <= i <= |chain|
      invariant |parts| == i
      invariant forall k :: 0 <= k < i ==> parts[k] == Entry(chain[k])
    {
      parts := parts + [Entry(chain[i])];
      i := i + 1;
    }
    assert parts == Entries(chain);
    r := Join(parts, CausedBy);
  }

  /** A single exception with no cause renders as its own entry, with no separator. */
  lemma UnwrapSingle(e: Exception)
    ensures Join(Entries([e]), CausedBy) == Entry(e)
  {
  }

  /** An exception with a cause renders as its own entry, the separator, then the rendering of
      the rest of the chain: outermost first, innermost last. */
  lemma UnwrapCause(e: Exception, causes: seq<Exception>)
    requires causes != []
    ensures Join(Entries([e] + causes), CausedBy) == Entry(e) + CausedBy + Join(Entries(causes), CausedBy)
  {
    assert ([e] + causes)[1..] == causes;
  }

  function TotalLength(parts: seq<string>): (r: nat) {
    if parts == [] then 0 else |parts[0]| + TotalLength(parts[1..])
  }

  /** The rendering holds every entry and exactly one separator between consecutive entries:
      its length is the entries' lengths plus `|chain| - 1` separators. */
  lemma {:induction false} JoinLength(parts: seq<string>, sep: string)
    requires parts != []
    ensures |Join(parts, sep)| == TotalLength(parts) + (|parts| - 1) * |sep|
  {
    if |parts| > 1 {
      JoinLength(parts[1..], sep);
    }
  }
}
