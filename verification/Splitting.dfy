/** Cutting text at a separator character. */
module Splitting {
  import opened Wrappers

  /** std::string::find(c, start). */
  function Find(s: string, c: char, start: nat): (r: Option<nat>)
    requires start <= |s|
    ensures r.Some? ==> start <= r.value < |s| && s[r.value] == c && forall i :: start <= i < r.value ==> s[i] != c
    ensures r.None? ==> forall i :: start <= i < |s| ==> s[i] != c
    decreases |s| - start
  {
    if start == |s| then None
    else if s[start] == c then Some(start)
    else Find(s, c, start + 1)
  }

  /** The pieces between separators. */
  function Split(s: string, sep: char): (parts: seq<string>)
    ensures parts != []
    decreases |s|
  {
    match Find(s, sep, 0)
    case None => [s]
    case Some(i) => [s[..i]] + Split(s[i + 1..], sep)
  }

  function Join(parts: seq<string>, sep: char): string
    requires parts != []
  {
    if |parts| == 1 then parts[0] else parts[0] + [sep] + Join(parts[1..], sep)
  }

  ghost predicate Free(s: string, c: char) {
    forall i :: 0 <= i < |s| ==> s[i] != c
  }

  lemma FindIs(s: string, c: char, start: nat, i: nat)
    requires start <= i < |s| && s[i] == c && forall k :: start <= k < i ==> s[k] != c
    ensures Find(s, c, start) == Some(i)
  {
  }

  lemma {:induction false} SplitJoin(parts: seq<string>, sep: char)
    requires parts != [] && forall p :: p in parts ==> Free(p, sep)
    ensures Split(Join(parts, sep), sep) == parts
  {
    var s := Join(parts, sep);
    assert parts[0] in parts;
    if |parts| > 1 {
      var i := |parts[0]|;
      assert s[i] == sep;
      FindIs(s, sep, 0, i);
      assert s[..i] == parts[0] && s[i + 1..] == Join(parts[1..], sep);
      forall p | p in parts[1..] ensures Free(p, sep) {
        assert p in parts;
      }
      SplitJoin(parts[1..], sep);
    } else {
      assert parts == [parts[0]];
    }
  }

  lemma {:induction false} JoinSplit(s: string, sep: char)
    ensures Join(Split(s, sep), sep) == s
    ensures forall p :: p in Split(s, sep) ==> Free(p, sep)
    decreases |s|
  {
    match Find(s, sep, 0)
    case None =>
    case Some(i) =>
      JoinSplit(s[i + 1..], sep);
      assert s == s[..i] + [sep] + s[i + 1..];
      assert Split(s, sep)[1..] == Split(s[i + 1..], sep);
  }

  lemma FindShifted(s: string, c: char, start: nat)
    requires start <= |s|
    ensures Find(s, c, start).None? ==> Find(s[start..], c, 0).None?
    ensures Find(s, c, start).Some? ==> Find(s[start..], c, 0) == Some(Find(s, c, start).value - start)
  {
    var t := s[start..];
    match Find(s, c, start)
    case None =>
      forall i | 0 <= i < |t| ensures t[i] != c {
        assert t[i] == s[start + i];
      }
    case Some(i) =>
      assert t[i - start] == s[i];
      FindIs(t, c, 0, i - start);
  }

  lemma SplitFirst(s: string, sep: char)
    ensures match Find(s, sep, 0)
            case None => Split(s, sep) == [s]
            case Some(i) => Split(s, sep) == [s[..i]] + Split(s[i + 1..], sep)
  {
    hide Find;
  }

  /** Splitting the rest of a text, one piece at a time. */
  lemma SplitFrom(s: string, sep: char, start: nat)
    requires start <= |s|
    ensures match Find(s, sep, start)
            case None => Split(s[start..], sep) == [s[start..]]
            case Some(i) => Split(s[start..], sep) == [s[start..i]] + Split(s[i + 1..], sep)
  {
    hide Find, Split;
    FindShifted(s, sep, start);
    SplitFirst(s[start..], sep);
    match Find(s, sep, start)
    case None =>
    case Some(i) => PieceOfRest(s, start, i);
  }

  lemma PieceOfRest(s: string, start: nat, i: nat)
    requires start <= i < |s|
    ensures s[start..][..i - start] == s[start..i]
    ensures s[start..][i - start + 1..] == s[i + 1..]
  {
  }
}
