/** The TOTP secret kept in a login: bare base32 text, or an otpauth URI whose query
    carries the secret and its parameters. */
module TotpSecret {
  import opened Words
  import opened Wrappers
  import opened Decimals
  import opened Splitting
  import opened Totp

  datatype TotpSpec = TotpSpec(base32Secret: string, period: uint32, digits: int, algorithm: Algorithm)

  const DEFAULT := TotpSpec("", 30, 6, Sha1)

  // ----- std::atoi -----

  predicate IsSpace(ch: char) {
    ch == ' ' || ch == '\t' || ch == '\n' || ch == '\r' || ch == 11 as char || ch == 12 as char
  }

  function LeadingDigits(s: string): (d: string)
    ensures AllDigits(d)
  {
    if s == "" || !IsDigit(s[0]) then "" else [s[0]] + LeadingDigits(s[1..])
  }

  function Atoi(s: string): int {
    if s == "" then 0
    else if IsSpace(s[0]) then Atoi(s[1..])
    else if s[0] == '-' then 0 - Value(LeadingDigits(s[1..]))
    else if s[0] == '+' then Value(LeadingDigits(s[1..]))
    else Value(LeadingDigits(s))
  }

  // ----- the query -----

  /** The algorithm of a name, in the two spellings that are accepted. */
  function AlgorithmOf(name: string): Option<Algorithm> {
    if name == "SHA1" || name == "sha1" then Some(Sha1)
    else if name == "SHA256" || name == "sha256" then Some(Sha256)
    else if name == "SHA512" || name == "sha512" then Some(Sha512)
    else None
  }

  const UNKNOWN_ALGORITHM := "unsupported TOTP algorithm"

  function Assigned(spec: TotpSpec, key: string, value: string): Result<TotpSpec> {
    if key == "secret" then Ok(spec.(base32Secret := value))
    else if key == "period" then Ok(spec.(period := Atoi(value) % TWO_32))
    else if key == "digits" then Ok(spec.(digits := Atoi(value)))
    else if key == "algorithm" then
      if AlgorithmOf(value).None? then Err(UNKNOWN_ALGORITHM)
      else Ok(spec.(algorithm := AlgorithmOf(value).value))
    else Ok(spec)
  }

  /** One piece of the query; a piece without '=' says nothing. */
  function Applied(spec: TotpSpec, piece: string): Result<TotpSpec> {
    match Find(piece, '=', 0)
    case None => Ok(spec)
    case Some(eq) => Assigned(spec, piece[..eq], piece[eq + 1..])
  }

  function AppliedAll(spec: TotpSpec, pieces: seq<string>): Result<TotpSpec>
    decreases |pieces|
  {
    if pieces == [] then Ok(spec)
    else
      var next :- Applied(spec, pieces[0]);
      AppliedAll(next, pieces[1..])
  }

  function Checked(spec: TotpSpec): Result<TotpSpec> {
    if spec.base32Secret == "" then Err("otpauth URI has no secret")
    else if spec.period == 0 || spec.digits < 6 || spec.digits > 10 then Err("otpauth URI has invalid parameters")
    else Ok(spec)
  }

  function Parsed(raw: string): Result<TotpSpec> {
    if "steam://" <= raw then Err("Steam TOTP is not supported")
    else if !("otpauth://" <= raw) then Ok(DEFAULT.(base32Secret := raw))
    else
      match Find(raw, '?', 0)
      case None => Err("otpauth URI has no parameters")
      case Some(query) =>
        var spec :- AppliedAll(DEFAULT, Split(raw[query + 1..], '&'));
        Checked(spec)
  }

  /** The pieces of the query from position pos on; none past the end. */
  function PiecesFrom(raw: string, pos: nat): seq<string> {
    if pos <= |raw| then Split(raw[pos..], '&') else []
  }

  lemma LastPiece(spec: TotpSpec, raw: string, pos: nat)
    requires pos >= |raw|
    ensures AppliedAll(spec, PiecesFrom(raw, pos)) == Ok(spec)
  {
    if pos == |raw| {
      assert raw[pos..] == "" && Split("", '&') == [""];
      assert Applied(spec, "") == Ok(spec);
    }
  }

  lemma NextPiece(spec: TotpSpec, raw: string, pos: nat, end: nat)
    requires pos < |raw| && Find(raw, '&', pos) == (if end < |raw| then Some(end) else None)
    requires pos <= end <= |raw|
    ensures PiecesFrom(raw, pos) == [raw[pos..end]] + PiecesFrom(raw, end + 1)
    ensures AppliedAll(spec, PiecesFrom(raw, pos))
            == (if Applied(spec, raw[pos..end]).Err? then Err(Applied(spec, raw[pos..end]).error)
                else AppliedAll(Applied(spec, raw[pos..end]).value, PiecesFrom(raw, end + 1)))
  {
    hide Applied;
    FindShifted(raw, '&', pos);
    if end < |raw| {
      assert raw[pos..][..end - pos] == raw[pos..end];
      assert raw[pos..][end - pos + 1..] == raw[end + 1..];
    } else {
      assert raw[pos..] == raw[pos..end];
    }
    assert PiecesFrom(raw, pos) == [raw[pos..end]] + PiecesFrom(raw, end + 1);
    assert PiecesFrom(raw, pos)[0] == raw[pos..end] && PiecesFrom(raw, pos)[1..] == PiecesFrom(raw, end + 1);
  }

  /** '=' looked for in the whole rest of the text, as the code does, and in the piece. */
  lemma EqualsInPiece(raw: string, pos: nat, end: nat)
    requires pos <= end <= |raw|
    ensures var eq := Find(raw, '=', pos);
            Find(raw[pos..end], '=', 0)
            == (if eq.Some? && eq.value < end then Some(eq.value - pos) else None)
  {
    var eq := Find(raw, '=', pos);
    var piece := raw[pos..end];
    if eq.Some? && eq.value < end {
      assert piece[eq.value - pos] == '=';
      FindIs(piece, '=', 0, eq.value - pos);
    } else {
      forall i | 0 <= i < |piece| ensures piece[i] != '=' {
        assert piece[i] == raw[pos + i];
      }
    }
  }

  /** The chain of key comparisons. */
  method Assign(spec: TotpSpec, key: string, value: string) returns (r: Result<TotpSpec>)
    ensures r == Assigned(spec, key, value)
  {
    hide Atoi;
    r := Ok(spec);
    if key == "secret" {
      r := Ok(spec.(base32Secret := value));
    } else if key == "period" {
      r := Ok(spec.(period := Atoi(value) % TWO_32));
    } else if key == "digits" {
      r := Ok(spec.(digits := Atoi(value)));
    } else if key == "algorithm" {
      if value == "SHA1" || value == "sha1" {
        r := Ok(spec.(algorithm := Sha1));
      } else if value == "SHA256" || value == "sha256" {
        r := Ok(spec.(algorithm := Sha256));
      } else if value == "SHA512" || value == "sha512" {
        r := Ok(spec.(algorithm := Sha512));
      } else {
        r := Err(UNKNOWN_ALGORITHM);
      }
    }
  }

  /** The loop over the query, which starts at pos. */
  method ReadQuery(raw: string, start: nat) returns (r: Result<TotpSpec>)
    requires start <= |raw|
    ensures r == AppliedAll(DEFAULT, PiecesFrom(raw, start))
  {
    hide Find, Split, Assigned, AppliedAll, PiecesFrom;
    var spec := DEFAULT;
    var pos := start;
    while pos < |raw|
      invariant start <= pos <= |raw| + 1
      invariant AppliedAll(spec, PiecesFrom(raw, pos)) == AppliedAll(DEFAULT, PiecesFrom(raw, start))
      decreases |raw| - pos
    {
      var amp := Find(raw, '&', pos);
      var end := if amp.Some? then amp.value else |raw|;
      NextPiece(spec, raw, pos, end);
      EqualsInPiece(raw, pos, end);
      var eq := Find(raw, '=', pos);
      if eq.Some? && eq.value < end {
        var key := raw[pos..eq.value];
        var value := raw[eq.value + 1..end];
        assert raw[pos..end][..eq.value - pos] == key && raw[pos..end][eq.value - pos + 1..] == value;
        spec :- Assign(spec, key, value);
      }
      pos := end + 1;
    }
    LastPiece(spec, raw, pos);
    r := Ok(spec);
  }

  /** parseTotpSecret. */
  method ParseTotpSecret(raw: string) returns (r: Result<TotpSpec>)
    ensures r == Parsed(raw)
  {
    hide Find, Split, AppliedAll;
    if "steam://" <= raw {
      return Err("Steam TOTP is not supported");
    }
    if !("otpauth://" <= raw) {
      return Ok(DEFAULT.(base32Secret := raw));
    }
    var queryStart := Find(raw, '?', 0);
    if queryStart.None? {
      return Err("otpauth URI has no parameters");
    }
    var spec :- ReadQuery(raw, queryStart.value + 1);
    if spec.base32Secret == "" {
      return Err("otpauth URI has no secret");
    }
    if spec.period == 0 || spec.digits < 6 || spec.digits > 10 {
      return Err("otpauth URI has invalid parameters");
    }
    r := Ok(spec);
  }

  // ----- what a query means, whatever the order of its pieces -----

  /** The piece assigns the key. */
  predicate Names(piece: string, key: string) {
    match Find(piece, '=', 0)
    case None => false
    case Some(eq) => piece[..eq] == key
  }

  function ValueIn(piece: string): string {
    match Find(piece, '=', 0)
    case None => ""
    case Some(eq) => piece[eq + 1..]
  }

  /** The value of the last piece that assigns the key. */
  function Last(pieces: seq<string>, key: string): Option<string>
    decreases |pieces|
  {
    if pieces == [] then None
    else if Last(pieces[1..], key).Some? then Last(pieces[1..], key)
    else if Names(pieces[0], key) then Some(ValueIn(pieces[0]))
    else None
  }

  ghost predicate AlgorithmsKnown(pieces: seq<string>) {
    forall p :: p in pieces && Names(p, "algorithm") ==> AlgorithmOf(ValueIn(p)).Some?
  }

  /** The spec with every key that the pieces assign replaced by its last value. */
  function Overridden(spec: TotpSpec, pieces: seq<string>): TotpSpec {
    var secret := Last(pieces, "secret");
    var period := Last(pieces, "period");
    var digits := Last(pieces, "digits");
    var algorithm := Last(pieces, "algorithm");
    TotpSpec(
      if secret.Some? then secret.value else spec.base32Secret,
      if period.Some? then Atoi(period.value) % TWO_32 else spec.period,
      if digits.Some? then Atoi(digits.value) else spec.digits,
      if algorithm.Some? && AlgorithmOf(algorithm.value).Some? then AlgorithmOf(algorithm.value).value
      else spec.algorithm)
  }

  lemma OnePiece(spec: TotpSpec, piece: string)
    ensures Applied(spec, piece).Err? <==> Names(piece, "algorithm") && AlgorithmOf(ValueIn(piece)).None?
    ensures Applied(spec, piece).Ok? ==>
              Applied(spec, piece).value == TotpSpec(
                if Names(piece, "secret") then ValueIn(piece) else spec.base32Secret,
                if Names(piece, "period") then Atoi(ValueIn(piece)) % TWO_32 else spec.period,
                if Names(piece, "digits") then Atoi(ValueIn(piece)) else spec.digits,
                if Names(piece, "algorithm") then AlgorithmOf(ValueIn(piece)).value else spec.algorithm)
  {
    hide Atoi, Find;
  }

  lemma {:induction false} LastIn(pieces: seq<string>, key: string)
    ensures Last(pieces, key).Some? ==> exists p :: p in pieces && Names(p, key) && ValueIn(p) == Last(pieces, key).value
    decreases |pieces|
  {
    hide Names, ValueIn;
    if pieces != [] {
      LastIn(pieces[1..], key);
      assert pieces[0] in pieces;
    }
  }

  /** The loop reads each parameter's last assignment and fails exactly when some
      piece names an unknown algorithm. */
  lemma {:induction false} QueryMeans(spec: TotpSpec, pieces: seq<string>)
    ensures AppliedAll(spec, pieces).Ok? <==> AlgorithmsKnown(pieces)
    ensures AlgorithmsKnown(pieces) ==> AppliedAll(spec, pieces) == Ok(Overridden(spec, pieces))
    decreases |pieces|
  {
    hide Atoi, Applied, Names, ValueIn, AlgorithmOf;
    if pieces != [] {
      var p, rest := pieces[0], pieces[1..];
      assert pieces == [p] + rest;
      OnePiece(spec, p);
      if Applied(spec, p).Ok? {
        QueryMeans(Applied(spec, p).value, rest);
        LastIn(rest, "algorithm");
      }
    }
  }

  /** An accepted URI names a secret and has parameters the code generator takes. */
  lemma AcceptedExactly(raw: string)
    requires "otpauth://" <= raw
    ensures Parsed(raw).Ok? <==>
            && Find(raw, '?', 0).Some?
            && (var pieces := Split(raw[Find(raw, '?', 0).value + 1..], '&');
                var spec := Overridden(DEFAULT, pieces);
                AlgorithmsKnown(pieces) && spec.base32Secret != "" && spec.period > 0 && 6 <= spec.digits <= 10)
    ensures Parsed(raw).Ok? ==>
              Parsed(raw).value == Overridden(DEFAULT, Split(raw[Find(raw, '?', 0).value + 1..], '&'))
  {
    hide Atoi, Split, Find, AlgorithmsKnown, Overridden, AppliedAll;
    assert raw[0] == 'o';
    if Find(raw, '?', 0).Some? {
      QueryMeans(DEFAULT, Split(raw[Find(raw, '?', 0).value + 1..], '&'));
    }
  }

  // ----- round trip -----

  function NameOf(algorithm: Algorithm): string {
    match algorithm
    case Sha1 => "SHA1"
    case Sha256 => "SHA256"
    case Sha512 => "SHA512"
  }

  function Params(spec: TotpSpec): seq<string>
    requires spec.digits >= 0
  {
    ["secret" + "=" + spec.base32Secret, "period" + "=" + ToString(spec.period),
     "digits" + "=" + ToString(spec.digits), "algorithm" + "=" + NameOf(spec.algorithm)]
  }

  /** The URI an authenticator would export. */
  function Uri(account: string, spec: TotpSpec): string
    requires spec.digits >= 0
  {
    "otpauth://totp/" + account + "?" + Join(Params(spec), '&')
  }

  lemma {:induction false} DigitsLead(s: string)
    requires AllDigits(s)
    ensures LeadingDigits(s) == s
  {
    if s != "" {
      DigitsLead(s[1..]);
    }
  }

  lemma AtoiReads(n: nat)
    ensures Atoi(ToString(n)) == n && Free(ToString(n), '&')
  {
    Reads(n);
    DigitsLead(ToString(n));
  }

  /** The piece assigns value to key, and to no other key. */
  ghost predicate Says(piece: string, key: string, value: string) {
    && ValueIn(piece) == value
    && forall k :: Names(piece, k) <==> k == key
  }

  lemma Assigns(key: string, value: string)
    requires Free(key, '=')
    ensures Says(key + "=" + value, key, value)
  {
    var p := key + "=" + value;
    FindIs(p, '=', 0, |key|);
    assert p[..|key|] == key && p[|key| + 1..] == value;
  }

  lemma LastOfFour(a: string, b: string, c: string, d: string, key: string)
    ensures Last([a, b, c, d], key)
            == (if Names(d, key) then Some(ValueIn(d)) else if Names(c, key) then Some(ValueIn(c))
                else if Names(b, key) then Some(ValueIn(b)) else if Names(a, key) then Some(ValueIn(a)) else None)
  {
    hide Names, ValueIn;
    assert [a, b, c, d][1..] == [b, c, d] && [b, c, d][1..] == [c, d] && [c, d][1..] == [d] && [d][1..] == [];
    assert Last([d], key) == if Names(d, key) then Some(ValueIn(d)) else None;
    assert Last([c, d], key) == if Last([d], key).Some? then Last([d], key)
                                else if Names(c, key) then Some(ValueIn(c)) else None;
    assert Last([b, c, d], key) == if Last([c, d], key).Some? then Last([c, d], key)
                                   else if Names(b, key) then Some(ValueIn(b)) else None;
  }

  lemma LastOfDistinct(a: string, b: string, c: string, d: string, j: string, k: string, l: string, m: string,
                       v: string, w: string, x: string, y: string)
    requires j != k && j != l && j != m && k != l && k != m && l != m
    requires Says(a, j, v) && Says(b, k, w) && Says(c, l, x) && Says(d, m, y)
    ensures Last([a, b, c, d], j) == Some(v) && Last([a, b, c, d], k) == Some(w)
    ensures Last([a, b, c, d], l) == Some(x) && Last([a, b, c, d], m) == Some(y)
    ensures forall p :: p in [a, b, c, d] && Names(p, m) ==> ValueIn(p) == y
  {
    LastOfFour(a, b, c, d, j);
    LastOfFour(a, b, c, d, k);
    LastOfFour(a, b, c, d, l);
    LastOfFour(a, b, c, d, m);
    hide Last, Names, ValueIn;
  }

  lemma KeysDiffer()
    ensures "secret" != "period" && "secret" != "digits" && "secret" != "algorithm"
    ensures "period" != "digits" && "period" != "algorithm" && "digits" != "algorithm"
  {
    assert "secret"[0] == 's' && "period"[0] == 'p' && "digits"[0] == 'd' && "algorithm"[0] == 'a';
  }

  lemma ParamsSay(spec: TotpSpec)
    requires spec.digits >= 0
    ensures var ps := Params(spec);
            && Says(ps[0], "secret", spec.base32Secret) && Says(ps[1], "period", ToString(spec.period))
            && Says(ps[2], "digits", ToString(spec.digits)) && Says(ps[3], "algorithm", NameOf(spec.algorithm))
  {
    hide Says, ToString, NameOf;
    Assigns("secret", spec.base32Secret);
    Assigns("period", ToString(spec.period));
    Assigns("digits", ToString(spec.digits));
    Assigns("algorithm", NameOf(spec.algorithm));
  }

  lemma AlgorithmNamed(algorithm: Algorithm)
    ensures AlgorithmOf(NameOf(algorithm)) == Some(algorithm)
  {
  }

  lemma PiecesRead(ps: seq<string>, spec: TotpSpec, period: string, digits: string, algorithm: string)
    requires |ps| == 4
    requires Says(ps[0], "secret", spec.base32Secret) && Says(ps[1], "period", period)
    requires Says(ps[2], "digits", digits) && Says(ps[3], "algorithm", algorithm)
    requires Atoi(period) == spec.period && Atoi(digits) == spec.digits
    requires AlgorithmOf(algorithm) == Some(spec.algorithm)
    ensures AlgorithmsKnown(ps) && Overridden(DEFAULT, ps) == spec
  {
    hide Says, Names, ValueIn, Atoi, Last, AlgorithmOf;
    KeysDiffer();
    assert ps == [ps[0], ps[1], ps[2], ps[3]];
    LastOfDistinct(ps[0], ps[1], ps[2], ps[3], "secret", "period", "digits", "algorithm",
                   spec.base32Secret, period, digits, algorithm);
  }

  lemma ParamsRead(spec: TotpSpec)
    requires spec.digits >= 0
    ensures AlgorithmsKnown(Params(spec)) && Overridden(DEFAULT, Params(spec)) == spec
  {
    hide Says, Atoi, ToString, NameOf, AlgorithmOf, AlgorithmsKnown, Overridden;
    ParamsSay(spec);
    AtoiReads(spec.period);
    AtoiReads(spec.digits);
    AlgorithmNamed(spec.algorithm);
    PiecesRead(Params(spec), spec, ToString(spec.period), ToString(spec.digits), NameOf(spec.algorithm));
  }

  /** Every usable spec survives being written as a URI, whatever the account. */
  lemma RoundTrip(account: string, spec: TotpSpec)
    requires Free(account, '?') && Free(spec.base32Secret, '&')
    requires spec.base32Secret != "" && spec.period > 0 && 6 <= spec.digits <= 10
    ensures Parsed(Uri(account, spec)) == Ok(spec)
  {
    hide Split, Join, Find, Overridden, AlgorithmsKnown, Uri, Free, ToString, NameOf;
    QueryOfUri(account, Join(Params(spec), '&'));
    UriIs(account, spec);
    ParamsFree(spec);
    SplitJoin(Params(spec), '&');
    ParamsRead(spec);
    AcceptedExactly(Uri(account, spec));
  }

  lemma UriIs(account: string, spec: TotpSpec)
    requires spec.digits >= 0
    ensures Params(spec) != []
    ensures Uri(account, spec) == "otpauth://totp/" + account + "?" + Join(Params(spec), '&')
  {
    hide Join;
  }

  lemma QueryOfUri(account: string, query: string)
    requires Free(account, '?')
    ensures var raw := "otpauth://totp/" + account + "?" + query;
            "otpauth://" <= raw && raw[0] == 'o' && Find(raw, '?', 0).Some? && raw[Find(raw, '?', 0).value + 1..] == query
  {
    hide Find;
    var head := "otpauth://totp/" + account;
    var raw := head + "?" + query;
    assert Free("otpauth://totp/", '?');
    FindIs(raw, '?', 0, |head|);
  }

  lemma ParamsFree(spec: TotpSpec)
    requires Free(spec.base32Secret, '&') && spec.digits >= 0
    ensures forall p :: p in Params(spec) ==> Free(p, '&')
  {
    hide ToString, Atoi;
    AtoiReads(spec.period);
    AtoiReads(spec.digits);
  }
}
