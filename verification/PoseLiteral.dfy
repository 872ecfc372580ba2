/** URScript pose literals, `p[x,y,z,rx,ry,rz]`. */
module PoseLiteral {
  import opened Results
  import opened Kinematics

  // --- strings ---

  /** Unicode white space. */
  predicate Space(c: char) {
    || '\U{9}' <= c <= '\U{D}' || c == ' ' || c == '\U{85}' || c == '\U{A0}' || c == '\U{1680}'
    || '\U{2000}' <= c <= '\U{200A}' || c == '\U{2028}' || c == '\U{2029}' || c == '\U{202F}' || c == '\U{205F}' || c == '\U{3000}'
  }

  predicate Blank(s: string) { forall i :: 0 <= i < |s| ==> Space(s[i]) }

  function TrimStart(s: string): string { if s != [] && Space(s[0]) then TrimStart(s[1..]) else s }

  function TrimEnd(s: string): string { if s != [] && Space(s[|s| - 1]) then TrimEnd(s[..|s| - 1]) else s }

  function Trim(s: string): string { TrimEnd(TrimStart(s)) }

  /** No white space at either end. */
  predicate Trimmed(s: string) { s == [] || (!Space(s[0]) && !Space(s[|s| - 1])) }

  function StripPrefix(s: string, c: char): Option<string> { if s != [] && s[0] == c then Some(s[1..]) else None }

  function StripSuffix(s: string, c: char): Option<string> { if s != [] && s[|s| - 1] == c then Some(s[..|s| - 1]) else None }

  /** The parts of a string between its commas; one part when there are none. */
  function Split(s: string): (parts: seq<string>)
    ensures parts != []
  {
    if s == [] then [[]]
    else
      var rest := Split(s[1..]);
      if s[0] == ',' then [[]] + rest else [[s[0]] + rest[0]] + rest[1..]
  }

  // --- parsing ---

  /** How numbers are written and read. */
  datatype Numbers = Numbers(format: real -> string, parse: string -> Option<real>) {
    /** What is written for `x` reads back, and holds no comma and no white space at its ends. */
    ghost predicate Faithful(x: real) { parse(format(x)) == Some(x) && Trimmed(format(x)) && ',' !in format(x) }

    /** Each of the six numbers is one that can be written. */
    ghost predicate Writes(q: Config) { forall i :: 0 <= i < 6 ==> Faithful(q[i]) }
  }

  datatype ParseError = NotALiteral | TooMany | NotANumber(component: nat) | TooFew(count: nat)

  function Body(s: string): Option<string> {
    var trimmed := Trim(s);
    var unprefixed := match StripPrefix(trimmed, 'p') case Some(r) => r case None => trimmed;
    match StripPrefix(Trim(unprefixed), '[')
    case None => None
    case Some(r) => StripSuffix(r, ']')
  }

  /** The numbers of the first `i` parts, or the first reason why they are not up to six numbers. */
  function Components(n: Numbers, parts: seq<string>, i: nat): Result<seq<real>, ParseError>
    requires i <= |parts|
  {
    if i == 0 then Ok([])
    else
      match Components(n, parts, i - 1)
      case Err(e) => Err(e)
      case Ok(seen) =>
        if |seen| == 6 then Err(TooMany)
        else
          match n.parse(Trim(parts[i - 1]))
          case None => Err(NotANumber(|seen|))
          case Some(x) => Ok(seen + [x])
  }

  function Parsed(n: Numbers, s: string): Result<Config, ParseError> {
    match Body(s)
    case None => Err(NotALiteral)
    case Some(body) =>
      match Components(n, Split(body), |Split(body)|)
      case Err(e) => Err(e)
      case Ok(seen) => if |seen| == 6 then Ok(seen) else Err(TooFew(|seen|))
  }

  lemma {:induction false} ComponentsStop(n: Numbers, parts: seq<string>, i: nat, j: nat)
    requires i <= j <= |parts| && Components(n, parts, i).Err?
    ensures Components(n, parts, j) == Components(n, parts, i)
  {
    if i < j {
      ComponentsStop(n, parts, i, j - 1);
    }
  }

  method ParsePoseString(n: Numbers, s: string) returns (r: Result<Config, ParseError>)
    ensures r == Parsed(n, s)
  {
    hide Split, Body;
    var body := Body(s);
    if body.None? {
      return Err(NotALiteral);
    }
    var parts := Split(body.value);
    var out := new real[6](_ => 0.0);
    var seen: nat := 0;
    for i := 0 to |parts|
      invariant seen <= 6
      invariant Components(n, parts, i) == Ok(out[..seen])
    {
      if seen == 6 {
        ComponentsStop(n, parts, i + 1, |parts|);
        return Err(TooMany);
      }
      var x := n.parse(Trim(parts[i]));
      if x.None? {
        ComponentsStop(n, parts, i + 1, |parts|);
        return Err(NotANumber(seen));
      }
      out[seen] := x.value;
      seen := seen + 1;
      assert out[..seen] == out[..seen - 1] + [x.value];
    }
    if seen != 6 {
      return Err(TooFew(seen));
    }
    assert out[..6] == out[..];
    r := Ok(out[..]);
  }

  // --- what is accepted ---

  /** Each part reads, with white space around it, as the component of the same place. */
  ghost predicate Reads(n: Numbers, parts: seq<string>, q: seq<real>) {
    |parts| == |q| && forall i :: 0 <= i < |q| ==> n.parse(Trim(parts[i])) == Some(q[i])
  }

  lemma {:induction false} ComponentsExact(n: Numbers, parts: seq<string>, i: nat, q: seq<real>)
    requires i <= |parts|
    ensures Components(n, parts, i) == Ok(q) <==> i <= 6 && Reads(n, parts[..i], q)
  {
    if i > 0 {
      var before := q[..if |q| > 0 then |q| - 1 else 0];
      ComponentsExact(n, parts, i - 1, before);
      if Components(n, parts, i - 1).Ok? {
        var seen := Components(n, parts, i - 1).value;
        ComponentsExact(n, parts, i - 1, seen);
      }
      if i <= 6 && Reads(n, parts[..i], q) {
        assert Reads(n, parts[..i - 1], before);
        assert q == before + [q[i - 1]];
      }
    }
  }

  /** A literal is accepted exactly when its bracketed body splits into six parts that read as numbers. */
  lemma AcceptedIff(n: Numbers, s: string, q: Config)
    ensures Parsed(n, s) == Ok(q) <==> Body(s).Some? && Reads(n, Split(Body(s).value), q)
  {
    hide Body, Split;
    if Body(s).Some? {
      var parts := Split(Body(s).value);
      ComponentsExact(n, parts, |parts|, q);
      assert parts[..|parts|] == parts;
      if Components(n, parts, |parts|).Ok? {
        ComponentsExact(n, parts, |parts|, Components(n, parts, |parts|).value);
      }
    }
  }

  // --- printing ---

  function Join(parts: seq<string>): string {
    if parts == [] then []
    else if |parts| == 1 then parts[0]
    else parts[0] + [','] + Join(parts[1..])
  }

  function Printed(n: Numbers, q: Config): seq<string> { seq(6, i requires 0 <= i < 6 => n.format(q[i])) }

  function ToLiteral(n: Numbers, q: Config): string { ['p', '['] + Join(Printed(n, q)) + [']'] }

  /** A printed pose with white space wherever a reader allows it, and with or without its `p`. */
  ghost predicate Variant(n: Numbers, q: Config, s: string) {
    exists p: bool, a, b, c, parts ::
      Blank(a) && Blank(b) && Blank(c) && Padded(parts, Printed(n, q)) && s == Spelled(p, a, b, c, Join(parts))
  }

  function Spelled(p: bool, a: string, b: string, c: string, inner: string): string {
    if p then a + (['p'] + b + Bracketed(inner)) + c else a + Bracketed(inner) + c
  }

  ghost predicate PaddedOne(x: string, core: string) { exists a, b :: Blank(a) && Blank(b) && x == a + core + b }

  ghost predicate Padded(parts: seq<string>, cores: seq<string>) {
    |parts| == |cores| && forall i :: 0 <= i < |parts| ==> PaddedOne(parts[i], cores[i])
  }

  lemma {:induction false} TrimStartBlank(a: string, x: string)
    requires Blank(a) && (x == [] || !Space(x[0]))
    ensures TrimStart(a + x) == x
  {
    if a == [] {
      assert a + x == x;
    } else {
      assert (a + x)[1..] == a[1..] + x;
      TrimStartBlank(a[1..], x);
    }
  }

  lemma {:induction false} TrimEndBlank(x: string, b: string)
    requires Blank(b) && (x == [] || !Space(x[|x| - 1]))
    ensures TrimEnd(x + b) == x
  {
    if b == [] {
      assert x + b == x;
    } else {
      assert (x + b)[..|x + b| - 1] == x + b[..|b| - 1];
      TrimEndBlank(x, b[..|b| - 1]);
    }
  }

  lemma TrimPadding(a: string, x: string, b: string)
    requires Blank(a) && Blank(b) && Trimmed(x)
    ensures Trim(a + x + b) == x
  {
    if x == [] {
      assert a + x + b == (a + b) + [];
      TrimStartBlank(a + b, []);
    } else {
      assert a + x + b == a + (x + b);
      TrimStartBlank(a, x + b);
      TrimEndBlank(x, b);
    }
  }

  lemma {:induction false} SplitOne(x: string)
    requires ',' !in x
    ensures Split(x) == [x]
  {
    if x != [] {
      SplitOne(x[1..]);
      assert [x[0]] + x[1..] == x;
    }
  }

  lemma {:induction false} SplitFirst(x: string, rest: string)
    requires ',' !in x
    ensures Split(x + [','] + rest) == [x] + Split(rest)
  {
    var s := x + [','] + rest;
    if x == [] {
      assert s[1..] == rest;
    } else {
      assert s[1..] == x[1..] + [','] + rest;
      SplitFirst(x[1..], rest);
      assert [x[0]] + x[1..] == x && ([x[1..]] + Split(rest))[1..] == Split(rest);
    }
  }

  /** Splitting undoes joining. */
  lemma {:induction false} SplitJoin(parts: seq<string>)
    requires parts != [] && forall i :: 0 <= i < |parts| ==> ',' !in parts[i]
    ensures Split(Join(parts)) == parts
  {
    if |parts| == 1 {
      SplitOne(parts[0]);
    } else {
      SplitJoin(parts[1..]);
      SplitFirst(parts[0], Join(parts[1..]));
    }
  }

  function Bracketed(inner: string): string { ['['] + inner + [']'] }

  lemma Unbracketed(inner: string)
    ensures Bracketed(inner) != [] && Trimmed(Bracketed(inner)) && StripPrefix(Bracketed(inner), 'p') == None
    ensures StripPrefix(Bracketed(inner), '[') == Some(inner + [']']) && StripSuffix(inner + [']'], ']') == Some(inner)
  {
    assert Bracketed(inner)[1..] == inner + [']'];
  }

  lemma Unprefixed(b: string, core: string)
    requires Trimmed(core) && core != []
    ensures Trimmed(['p'] + b + core) && StripPrefix(['p'] + b + core, 'p') == Some(b + core)
  {
    var s := ['p'] + b + core;
    assert s[1..] == b + core && s[|s| - 1] == core[|core| - 1];
  }

  lemma BodySpelled(p: bool, a: string, b: string, c: string, inner: string)
    requires Blank(a) && Blank(b) && Blank(c)
    ensures Body(Spelled(p, a, b, c, inner)) == Some(inner)
  {
    hide Trim, Bracketed, StripPrefix, StripSuffix, Trimmed;
    var core := Bracketed(inner);
    Unbracketed(inner);
    if p {
      Unprefixed(b, core);
      TrimPadding(a, ['p'] + b + core, c);
      TrimPadding(b, core, []);
      assert b + core + [] == b + core;
    } else {
      TrimPadding(a, core, c);
      TrimPadding([], core, []);
      assert [] + core + [] == core;
    }
  }

  /** Parsing any spelling of a printed pose gives the pose back. */
  lemma VariantsReadBack(n: Numbers, q: Config, s: string)
    requires n.Writes(q) && Variant(n, q, s)
    ensures Parsed(n, s) == Ok(q)
  {
    hide Body, Split, Parsed, Spelled, Trim;
    var p: bool, a, b, c, parts :|
      Blank(a) && Blank(b) && Blank(c) && Padded(parts, Printed(n, q)) && s == Spelled(p, a, b, c, Join(parts));
    BodySpelled(p, a, b, c, Join(parts));
    forall i | 0 <= i < 6 ensures ',' !in parts[i] && n.parse(Trim(parts[i])) == Some(q[i]) {
      assert PaddedOne(parts[i], Printed(n, q)[i]);
      var l, r :| Blank(l) && Blank(r) && parts[i] == l + n.format(q[i]) + r;
      assert n.Faithful(q[i]);
      TrimPadding(l, n.format(q[i]), r);
    }
    SplitJoin(parts);
    AcceptedIff(n, s, q);
  }

  lemma Unpadded(x: string)
    ensures PaddedOne(x, x)
  {
    assert Blank([]) && x == [] + x + [];
  }

  /** In particular what `pose_to_string` writes. */
  lemma LiteralReadsBack(n: Numbers, q: Config)
    requires n.Writes(q)
    ensures Parsed(n, ToLiteral(n, q)) == Ok(q)
  {
    hide Parsed;
    var parts := Printed(n, q);
    forall i | 0 <= i < 6 ensures PaddedOne(parts[i], parts[i]) {
      Unpadded(parts[i]);
    }
    assert ToLiteral(n, q) == Spelled(true, [], [], [], Join(parts));
    assert Variant(n, q, ToLiteral(n, q));
    VariantsReadBack(n, q, ToLiteral(n, q));
  }

  // --- what is accepted, letter by letter ---

  lemma {:induction false} StartSplits(s: string) returns (a: string)
    ensures Blank(a) && s == a + TrimStart(s) && (TrimStart(s) == [] || !Space(TrimStart(s)[0]))
  {
    a := [];
    if s != [] && Space(s[0]) {
      var rest := StartSplits(s[1..]);
      a := [s[0]] + rest;
    }
  }

  lemma {:induction false} EndSplits(s: string) returns (b: string)
    ensures Blank(b) && s == TrimEnd(s) + b && TrimEnd(s) <= s && (TrimEnd(s) == [] || !Space(TrimEnd(s)[|TrimEnd(s)| - 1]))
  {
    b := [];
    if s != [] && Space(s[|s| - 1]) {
      var rest := EndSplits(s[..|s| - 1]);
      b := rest + [s[|s| - 1]];
    }
  }

  /** Trimming takes off all the white space at both ends and nothing else. */
  lemma TrimExact(s: string, x: string)
    ensures Trim(s) == x <==> PaddedOne(s, x) && Trimmed(x)
  {
    hide Space;
    var a := StartSplits(s);
    var b := EndSplits(TrimStart(s));
    assert s == a + Trim(s) + b;
    assert PaddedOne(s, Trim(s)) && Trimmed(Trim(s));
    if PaddedOne(s, x) && Trimmed(x) {
      var l, r :| Blank(l) && Blank(r) && s == l + x + r;
      TrimPadding(l, x, r);
    }
  }

  /** The string is a literal around `inner`, with white space where it is allowed, and with or without the `p`. */
  ghost predicate LiteralOf(s: string, inner: string) {
    exists p: bool, a, b, c :: Blank(a) && Blank(b) && Blank(c) && s == Spelled(p, a, b, c, inner)
  }

  lemma BodyExact(s: string, inner: string)
    ensures Body(s) == Some(inner) <==> LiteralOf(s, inner)
  {
    if Body(s) == Some(inner) {
      BodyIsSpelled(s, inner);
    }
    if LiteralOf(s, inner) {
      var p: bool, a, b, c :| Blank(a) && Blank(b) && Blank(c) && s == Spelled(p, a, b, c, inner);
      BodySpelled(p, a, b, c, inner);
    }
  }

  lemma BodyIsSpelled(s: string, inner: string)
    requires Body(s) == Some(inner)
    ensures LiteralOf(s, inner)
  {
    hide Trim, PaddedOne, Trimmed;
    var trimmed := Trim(s);
    var p := StripPrefix(trimmed, 'p').Some?;
    var unprefixed := if p then trimmed[1..] else trimmed;
    var bracketed := Trim(unprefixed);
    Rebracket(bracketed, inner);
    TrimExact(s, trimmed);
    TrimExact(unprefixed, bracketed);
    if p {
      assert trimmed == ['p'] + unprefixed;
    }
    SpelledFrom(s, trimmed, p, unprefixed, bracketed, inner);
  }

  lemma Rebracket(s: string, inner: string)
    requires StripPrefix(s, '[').Some? && StripSuffix(StripPrefix(s, '[').value, ']') == Some(inner)
    ensures s == Bracketed(inner)
  {
    var r := s[1..];
    assert s == [s[0]] + r && r == r[..|r| - 1] + [r[|r| - 1]];
  }

  lemma SpelledFrom(s: string, trimmed: string, p: bool, unprefixed: string, bracketed: string, inner: string)
    requires PaddedOne(s, trimmed) && PaddedOne(unprefixed, bracketed) && bracketed == Bracketed(inner)
    requires trimmed == if p then ['p'] + unprefixed else unprefixed
    ensures LiteralOf(s, inner)
  {
    hide Bracketed, Blank;
    var a, c :| Blank(a) && Blank(c) && s == a + trimmed + c;
    var b, d :| Blank(b) && Blank(d) && unprefixed == b + bracketed + d;
    BlankJoin(a, b);
    BlankJoin(d, c);
    BlankJoin([], []);
    if p {
      Regroup(a, ['p'], b, bracketed, d, c);
      assert s == Spelled(true, a, b, d + c, inner);
    } else {
      Regroup(a, [], b, bracketed, d, c);
      assert s == Spelled(false, a + b, [], d + c, inner);
    }
  }

  lemma BlankJoin(a: string, b: string)
    ensures (Blank(a) && Blank(b) ==> Blank(a + b)) && Blank([])
  {
  }

  lemma Regroup(a: string, p: string, b: string, x: string, d: string, c: string)
    ensures a + (p + (b + x + d)) + c == a + (p + b + x) + (d + c)
    ensures p == [] ==> a + (b + x + d) + c == (a + b) + x + (d + c)
  {
    assert p + (b + x + d) == (p + b + x) + d;
    if p == [] {
      assert a + (b + x + d) == (a + b) + x + d;
    }
  }

  predicate Commaless(parts: seq<string>) { forall i :: 0 <= i < |parts| ==> ',' !in parts[i] }

  /** Joining undoes splitting, and the parts hold no comma. */
  lemma {:induction false} JoinSplit(s: string)
    ensures Join(Split(s)) == s && Commaless(Split(s))
  {
    hide Join;
    if s == [] {
      assert Join([[]]) == [] by { JoinOne([]); }
    } else {
      JoinSplit(s[1..]);
      var rest := Split(s[1..]);
      assert s == [s[0]] + s[1..];
      if s[0] == ',' {
        JoinOn([], rest);
      } else {
        FirstLonger(s[0], rest);
      }
    }
  }

  lemma JoinOne(x: string)
    ensures Join([x]) == x
  {
  }

  /** A letter put before the first part comes before the whole. */
  lemma FirstLonger(c: char, parts: seq<string>)
    requires parts != []
    ensures Join([[c] + parts[0]] + parts[1..]) == [c] + Join(parts)
  {
    hide Join;
    var first := [c] + parts[0];
    if |parts| == 1 {
      JoinOne(first);
      JoinOne(parts[0]);
      assert parts == [parts[0]] && [first] + parts[1..] == [first];
    } else {
      JoinOn(first, parts[1..]);
      JoinOn(parts[0], parts[1..]);
      assert parts == [parts[0]] + parts[1..];
    }
  }

  lemma JoinOn(x: string, parts: seq<string>)
    requires parts != []
    ensures Join([x] + parts) == x + [','] + Join(parts)
  {
    assert ([x] + parts)[1..] == parts;
  }

  lemma SplitExact(s: string, parts: seq<string>)
    ensures Split(s) == parts <==> parts != [] && Commaless(parts) && s == Join(parts)
  {
    JoinSplit(s);
    if parts != [] && Commaless(parts) && s == Join(parts) {
      SplitJoin(parts);
    }
  }

  /** The part is a number with white space around it. */
  ghost predicate ReadsAs(n: Numbers, part: string, x: real) {
    exists core :: PaddedOne(part, core) && Trimmed(core) && n.parse(core) == Some(x)
  }

  lemma ReadsAsExact(n: Numbers, part: string, x: real)
    ensures ReadsAs(n, part, x) <==> n.parse(Trim(part)) == Some(x)
  {
    hide PaddedOne, Trimmed, Trim;
    TrimExact(part, Trim(part));
    if ReadsAs(n, part, x) {
      var core :| PaddedOne(part, core) && Trimmed(core) && n.parse(core) == Some(x);
      TrimExact(part, core);
    }
  }

  /** The literal's parts between commas. */
  ghost predicate PartsOf(s: string, parts: seq<string>) { parts != [] && Commaless(parts) && LiteralOf(s, Join(parts)) }

  lemma PartsExact(s: string, parts: seq<string>)
    ensures PartsOf(s, parts) <==> Body(s).Some? && parts == Split(Body(s).value)
  {
    hide Body, Split, Join, LiteralOf;
    BodyExact(s, Join(parts));
    if Body(s).Some? {
      SplitExact(Body(s).value, parts);
    }
  }

  /** The numbers a string is read as are those of its six parts; nothing else about it matters. */
  lemma ReadExactly(n: Numbers, s: string, q: Config)
    ensures Parsed(n, s) == Ok(q)
       <==> exists parts :: PartsOf(s, parts) && |parts| == 6 && forall i :: 0 <= i < 6 ==> ReadsAs(n, parts[i], q[i])
  {
    hide Body, Split, Parsed, PartsOf, ReadsAs, Trim;
    AcceptedIff(n, s, q);
    if Body(s).Some? {
      var parts := Split(Body(s).value);
      PartsExact(s, parts);
      forall i | 0 <= i < 6 && i < |parts| ensures ReadsAs(n, parts[i], q[i]) <==> n.parse(Trim(parts[i])) == Some(q[i]) {
        ReadsAsExact(n, parts[i], q[i]);
      }
    }
    forall parts | PartsOf(s, parts) ensures Body(s).Some? && parts == Split(Body(s).value) {
      PartsExact(s, parts);
    }
  }

  // --- what is refused ---

  ghost predicate ReadsAny(n: Numbers, part: string) { exists x :: ReadsAs(n, part, x) }

  /** The first thing wrong with the parts: a part that is no number among the first six, or too many, or too few. */
  ghost predicate Faults(n: Numbers, parts: seq<string>, e: ParseError) {
    match e
    case NotALiteral => false
    case NotANumber(k) =>
      k < 6 && k < |parts| && !ReadsAny(n, parts[k]) && forall i :: 0 <= i < k ==> ReadsAny(n, parts[i])
    case TooMany => |parts| > 6 && forall i :: 0 <= i < 6 ==> ReadsAny(n, parts[i])
    case TooFew(m) => m == |parts| < 6 && forall i :: 0 <= i < m ==> ReadsAny(n, parts[i])
  }

  lemma ReadsAnyExact(n: Numbers, part: string)
    ensures ReadsAny(n, part) <==> n.parse(Trim(part)).Some?
  {
    hide ReadsAs, Trim;
    forall x ensures ReadsAs(n, part, x) <==> n.parse(Trim(part)) == Some(x) {
      ReadsAsExact(n, part, x);
    }
    if n.parse(Trim(part)).Some? {
      assert ReadsAs(n, part, n.parse(Trim(part)).value);
    }
  }

  lemma {:induction false} ComponentsFault(n: Numbers, parts: seq<string>, i: nat)
    requires i <= |parts|
    ensures var r := Components(n, parts, i);
            && (r.Ok? ==> |r.value| == i <= 6 && forall j :: 0 <= j < i ==> ReadsAny(n, parts[j]))
            && (r.Err? ==> !r.error.TooFew? && Faults(n, parts, r.error))
  {
    hide ReadsAny, Trim;
    if i > 0 {
      ComponentsFault(n, parts, i - 1);
      ReadsAnyExact(n, parts[i - 1]);
    }
  }

  /** A string is refused as no literal exactly when it has no parts, and otherwise for the first fault of its parts. */
  lemma RefusedExactly(n: Numbers, s: string)
    ensures var r := Parsed(n, s);
            && (r == Err(NotALiteral) <==> forall parts :: !PartsOf(s, parts))
            && (r.Err? && r.error != NotALiteral ==> exists parts :: PartsOf(s, parts) && Faults(n, parts, r.error))
  {
    hide Body, Split, Components, PartsOf;
    forall parts ensures PartsOf(s, parts) <==> Body(s).Some? && parts == Split(Body(s).value) {
      PartsExact(s, parts);
    }
    if Body(s).Some? {
      var parts := Split(Body(s).value);
      assert PartsOf(s, parts);
      ComponentsFault(n, parts, |parts|);
    }
  }
}
