/** Firmware versions: the string the device prints, the grammar the build accepts, and the
    five bytes whose equality decides whether to reflash. */
module FirmwareVersion {
  import opened Words

  type Byte = n: nat | n < 256

  datatype Version = Version(major: Byte, minor: Byte, patch: Byte, pre: Byte, counter: Byte)

  // ---------------------------------------------------------------- numbers

  predicate IsDigit(c: char) {
    '0' <= c <= '9'
  }

  predicate Digits(s: string) {
    forall i :: 0 <= i < |s| ==> IsDigit(s[i])
  }

  function Decimal(n: nat): (r: string)
    ensures |r| > 0 && Digits(r)
  {
    var last := '0' + (n % 10) as char;
    if n < 10 then [last] else Decimal(n / 10) + [last]
  }

  function Value(s: string): nat
    requires Digits(s)
  {
    if s == "" then 0 else Value(s[..|s| - 1]) * 10 + (s[|s| - 1] - '0') as nat
  }

  lemma {:induction false} ValueOfDecimal(n: nat)
    ensures Value(Decimal(n)) == n
  {
    if n >= 10 {
      ValueOfDecimal(n / 10);
      var d := Decimal(n);
      assert d[..|d| - 1] == Decimal(n / 10);
    }
  }

  // ---------------------------------------------------------------- printing

  /** Names of the pre-release kinds; other indices print as nothing. */
  function PreName(pre: Byte): string {
    if pre == 1 then "alpha" else if pre == 2 then "beta" else if pre == 3 then "rc" else if pre == 4 then "dev" else ""
  }

  function PrintedPre(v: Version): string {
    if v.pre != 0 then "-" + PreName(v.pre) else ""
  }

  function PrintedCounter(v: Version): string {
    if v.counter != 0 then "." + Decimal(v.counter) else ""
  }

  /** `status_string` in the connected state. */
  function Print(v: Version): string {
    "v" + Decimal(v.major) + "." + Decimal(v.minor) + "." + Decimal(v.patch)
    + PrintedPre(v) + PrintedCounter(v)
  }

  // ---------------------------------------------------------------- the grammar

  /** What follows the three numbers. */
  datatype Suffix = Plain | Pre(name: string) | PreCounter(name: string, digits: string)

  /** A string of the version grammar, taken apart. */
  datatype Shape = Shape(lead: string, major: string, minor: string, patch: string, suffix: Suffix, newline: bool)

  function LowerChar(c: char): char {
    if 'A' <= c <= 'Z' then c - 'A' + 'a' else c
  }

  function Lower(s: string): (r: string)
    ensures |r| == |s| && forall i :: 0 <= i < |s| ==> r[i] == LowerChar(s[i])
  {
    if s == "" then "" else [LowerChar(s[0])] + Lower(s[1..])
  }

  /** Position of a name in the list of pre-release kinds, from `k` on; 0 if it is not there. */
  function FindName(name: string, k: Byte): (r: Byte)
    requires 1 <= k <= 5
    ensures r <= 4 && (r != 0 ==> name == PreName(r))
    decreases 5 - k
  {
    if k == 5 then 0 else if name == PreName(k) then k else FindName(name, k + 1)
  }

  function PreIndex(name: string): (r: Byte)
    ensures r <= 4 && (r != 0 ==> Lower(name) == PreName(r))
  {
    FindName(Lower(name), 1)
  }

  predicate Number(s: string) {
    s != "" && Digits(s)
  }

  predicate InGrammar(x: Shape) {
    && (x.lead == "" || x.lead == "v" || x.lead == "V")
    && Number(x.major) && Number(x.minor) && Number(x.patch) && GoodSuffix(x.suffix)
  }

  predicate GoodSuffix(x: Suffix) {
    match x
    case Plain => true
    case Pre(name) => PreIndex(name) != 0
    case PreCounter(name, digits) => PreIndex(name) != 0 && Number(digits)
  }

  /** What stands behind the name of the pre-release. */
  function Behind(x: Suffix): string {
    if x.PreCounter? then "." + x.digits else ""
  }

  function RenderSuffix(x: Suffix): string {
    if x == Plain then "" else "-" + (x.name + Behind(x))
  }

  /** A number, the dot behind it, and the rest. */
  function Dotted(number: string, rest: string): string {
    number + ("." + rest)
  }

  function RenderBody(x: Shape): string {
    x.lead + Dotted(x.major, Dotted(x.minor, x.patch + RenderSuffix(x.suffix)))
  }

  function WithNewline(s: string, newline: bool): string {
    if newline then s + "\n" else s
  }

  /** The string a shape stands for; `$` also matches before a final newline. */
  function Render(x: Shape): string {
    WithNewline(RenderBody(x), x.newline)
  }

  // ---------------------------------------------------------------- parsing

  /** Length of the leading run of digits. */
  function Run(s: string): (n: nat)
    ensures n <= |s| && Digits(s[..n]) && (n < |s| ==> !IsDigit(s[n]))
  {
    if s == "" || !IsDigit(s[0]) then 0
    else
      var n := 1 + Run(s[1..]);
      assert forall i :: 0 < i < n ==> s[i] == s[1..][i - 1];
      n
  }

  /** A number and the dot behind it. */
  function TakeField(s: string): Option<(string, string)> {
    var n := Run(s);
    if 0 < n < |s| && s[n] == '.' then Some((s[..n], s[n + 1..])) else None
  }

  /** Position of the first dot, or the end. */
  function Dot(s: string): (n: nat)
    ensures n <= |s| && (forall i :: 0 <= i < n ==> s[i] != '.') && (n < |s| ==> s[n] == '.')
  {
    if s == "" || s[0] == '.' then 0 else 1 + Dot(s[1..])
  }

  function BuildSuffix(name: string, behind: string): Option<Suffix> {
    if PreIndex(name) == 0 then None
    else if behind == "" then Some(Pre(name))
    else if Number(behind[1..]) then Some(PreCounter(name, behind[1..]))
    else None
  }

  function ParseSuffix(s: string): Option<Suffix> {
    if s == "" then Some(Plain)
    else if s[0] != '-' then None
    else
      var rest := s[1..];
      BuildSuffix(rest[..Dot(rest)], rest[Dot(rest)..])
  }

  /** The third number and the suffix. */
  function ParseEnd(s: string): Option<(string, Suffix)> {
    var n := Run(s);
    if n == 0 || ParseSuffix(s[n..]).None? then None else Some((s[..n], ParseSuffix(s[n..]).value))
  }

  function Lead(s: string): string {
    if s != "" && (s[0] == 'v' || s[0] == 'V') then s[..1] else ""
  }

  function ParseNumbers(lead: string, s: string, newline: bool): Option<Shape> {
    match TakeField(s)
    case None => None
    case Some((major, s1)) =>
      match TakeField(s1)
      case None => None
      case Some((minor, s2)) =>
        match ParseEnd(s2)
        case None => None
        case Some((patch, suffix)) => Some(Shape(lead, major, minor, patch, suffix, newline))
  }

  function ParseBody(s: string, newline: bool): Option<Shape> {
    ParseNumbers(Lead(s), s[|Lead(s)|..], newline)
  }

  /** The string without one final newline, and whether there was one. */
  function Chomp(s: string): (string, bool) {
    if s != "" && s[|s| - 1] == '\n' then (s[..|s| - 1], true) else (s, false)
  }

  /** The regular-expression match of `_version_to_bytes`, over ASCII digits. */
  function ParseShape(s: string): Option<Shape> {
    ParseBody(Chomp(s).0, Chomp(s).1)
  }

  /** A failed match, a number over 255, or the bytes. */
  datatype Parsed = NoMatch | OutOfRange | Bytes(v: Version)

  function Parse(s: string): Parsed {
    match ParseShape(s)
    case None => NoMatch
    case Some(x) => ShapeBytes(x)
  }

  function ShapeBytes(x: Shape): Parsed {
    if !(Digits(x.major) && Digits(x.minor) && Digits(x.patch)) then NoMatch
    else
      var pre := if x.suffix == Plain then 0 else PreIndex(x.suffix.name);
      var counter := if x.suffix.PreCounter? && Digits(x.suffix.digits) then Value(x.suffix.digits) else 0;
      if Value(x.major) < 256 && Value(x.minor) < 256 && Value(x.patch) < 256 && counter < 256 then
        Bytes(Version(Value(x.major), Value(x.minor), Value(x.patch), pre, counter))
      else OutOfRange
  }

  // ---------------------------------------------------------------- the parser is the grammar

  lemma BuildSuffixSound(name: string, behind: string)
    requires (behind != "" ==> behind[0] == '.') && BuildSuffix(name, behind).Some?
    ensures var x := BuildSuffix(name, behind).value; GoodSuffix(x) && x != Plain && x.name == name && Behind(x) == behind
  {
    if behind != "" {
      assert behind == "." + behind[1..];
    }
  }

  lemma ParseSuffixSound(s: string)
    requires ParseSuffix(s).Some?
    ensures RenderSuffix(ParseSuffix(s).value) == s && GoodSuffix(ParseSuffix(s).value)
  {
    if s != "" {
      var rest := s[1..];
      var name, behind := rest[..Dot(rest)], rest[Dot(rest)..];
      BuildSuffixSound(name, behind);
      assert s == "-" + (name + behind);
    }
  }

  lemma TakeFieldSound(s: string)
    requires TakeField(s).Some?
    ensures var (d, rest) := TakeField(s).value; Number(d) && s == Dotted(d, rest)
  {
  }

  lemma Glue(s: string, n: nat, tail: string)
    requires n <= |s| && tail == s[n..]
    ensures s == s[..n] + tail
  {
  }

  lemma ParseEndSound(s: string)
    requires ParseEnd(s).Some?
    ensures var (patch, suffix) := ParseEnd(s).value;
            Number(patch) && s == patch + RenderSuffix(suffix) && GoodSuffix(suffix)
  {
    var n := Run(s);
    ParseSuffixSound(s[n..]);
    Glue(s, n, RenderSuffix(ParseSuffix(s[n..]).value));
  }

  lemma ParseNumbersSound(lead: string, s: string, newline: bool)
    requires ParseNumbers(lead, s, newline).Some?
    ensures var x := ParseNumbers(lead, s, newline).value;
            && x.lead == lead && x.newline == newline
            && Number(x.major) && Number(x.minor) && Number(x.patch) && GoodSuffix(x.suffix)
            && s == Dotted(x.major, Dotted(x.minor, x.patch + RenderSuffix(x.suffix)))
  {
    TakeFieldSound(s);
    var s1 := TakeField(s).value.1;
    TakeFieldSound(s1);
    ParseEndSound(TakeField(s1).value.1);
  }

  lemma LeadIsPrefix(s: string)
    ensures |Lead(s)| <= |s| && s[..|Lead(s)|] == Lead(s)
    ensures Lead(s) == "" || Lead(s) == "v" || Lead(s) == "V"
  {
  }

  lemma ParseBodySound(s: string, newline: bool)
    requires ParseBody(s, newline).Some?
    ensures var x := ParseBody(s, newline).value; InGrammar(x) && x.newline == newline && RenderBody(x) == s
  {
    var lead := Lead(s);
    LeadIsPrefix(s);
    ParseNumbersSound(lead, s[|lead|..], newline);
    var x := ParseNumbers(lead, s[|lead|..], newline).value;
    Glue(s, |lead|, Dotted(x.major, Dotted(x.minor, x.patch + RenderSuffix(x.suffix))));
  }

  lemma ChompInverse(s: string)
    ensures WithNewline(Chomp(s).0, Chomp(s).1) == s
  {
    if s != "" {
      assert s == s[..|s| - 1] + [s[|s| - 1]];
    }
  }

  lemma ChompOf(s: string, newline: bool)
    requires s != "" && s[|s| - 1] != '\n'
    ensures Chomp(WithNewline(s, newline)) == (s, newline)
  {
    assert (s + "\n")[..|s|] == s;
  }

  /** Whatever the parser accepts is a string of the grammar, taken apart correctly. */
  lemma ParseShapeSound(s: string)
    requires ParseShape(s).Some?
    ensures InGrammar(ParseShape(s).value) && Render(ParseShape(s).value) == s
  {
    var (body, newline) := Chomp(s);
    ParseBodySound(body, newline);
    ChompInverse(s);
  }

  lemma {:induction false} RunOf(d: string, rest: string)
    requires Digits(d) && (rest == "" || !IsDigit(rest[0]))
    ensures Run(d + rest) == |d|
  {
    if d == "" {
      assert d + rest == rest;
    } else {
      assert (d + rest)[1..] == d[1..] + rest;
      RunOf(d[1..], rest);
    }
  }

  lemma {:induction false} DotOf(name: string, rest: string)
    requires (forall i :: 0 <= i < |name| ==> name[i] != '.') && (rest == "" || rest[0] == '.')
    ensures Dot(name + rest) == |name|
  {
    if name == "" {
      assert name + rest == rest;
    } else {
      assert (name + rest)[1..] == name[1..] + rest;
      DotOf(name[1..], rest);
    }
  }

  /** The names of the pre-release kinds contain neither dots nor line ends. */
  lemma NamesArePlain(name: string)
    requires PreIndex(name) != 0
    ensures name != "" && forall i :: 0 <= i < |name| ==> name[i] != '.' && name[i] != '\n'
  {
    PreNamesArePlain(PreIndex(name));
    forall i | 0 <= i < |name|
      ensures name[i] != '.' && name[i] != '\n'
    {
      assert Lower(name)[i] == LowerChar(name[i]);
    }
  }

  lemma PreNamesArePlain(pre: Byte)
    requires 1 <= pre <= 4
    ensures var s := PreName(pre); s != "" && forall i :: 0 <= i < |s| ==> 'a' <= s[i] <= 'z'
  {
  }

  lemma TakeFieldComplete(d: string, rest: string)
    requires Number(d)
    ensures TakeField(Dotted(d, rest)) == Some((d, rest))
  {
    RunOf(d, "." + rest);
    assert Dotted(d, rest)[..|d|] == d && Dotted(d, rest)[|d| + 1..] == rest;
  }

  /** The parser splits a suffix where the name ends. */
  lemma SplitSuffix(name: string, behind: string)
    requires (forall i :: 0 <= i < |name| ==> name[i] != '.') && (behind != "" ==> behind[0] == '.')
    ensures ParseSuffix("-" + (name + behind)) == BuildSuffix(name, behind)
  {
    DotOf(name, behind);
    var s := "-" + (name + behind);
    assert s[1..] == name + behind;
    assert (name + behind)[..|name|] == name && (name + behind)[|name|..] == behind;
  }

  lemma ParseSuffixComplete(x: Suffix)
    requires GoodSuffix(x)
    ensures ParseSuffix(RenderSuffix(x)) == Some(x)
  {
    if x != Plain {
      NamesArePlain(x.name);
      SplitSuffix(x.name, Behind(x));
      if x.PreCounter? {
        assert Behind(x)[1..] == x.digits;
      }
    }
  }

  lemma ParseEndComplete(patch: string, x: Suffix)
    requires Number(patch) && GoodSuffix(x)
    ensures ParseEnd(patch + RenderSuffix(x)) == Some((patch, x))
  {
    RunOf(patch, RenderSuffix(x));
    ParseSuffixComplete(x);
    var s := patch + RenderSuffix(x);
    assert s[..|patch|] == patch && s[|patch|..] == RenderSuffix(x);
  }

  lemma LeadOf(lead: string, s: string)
    requires lead == "" || lead == "v" || lead == "V"
    requires s != "" && IsDigit(s[0])
    ensures Lead(lead + s) == lead && (lead + s)[|lead|..] == s
  {
    if lead == "" {
      assert lead + s == s;
    }
  }

  lemma NumbersComplete(x: Shape)
    requires InGrammar(x)
    ensures ParseNumbers(x.lead, Dotted(x.major, Dotted(x.minor, x.patch + RenderSuffix(x.suffix))), x.newline) == Some(x)
  {
    var s2 := x.patch + RenderSuffix(x.suffix);
    TakeFieldComplete(x.major, Dotted(x.minor, s2));
    TakeFieldComplete(x.minor, s2);
    ParseEndComplete(x.patch, x.suffix);
  }

  lemma ParseBodyComplete(x: Shape)
    requires InGrammar(x)
    ensures ParseBody(RenderBody(x), x.newline) == Some(x)
  {
    var s0 := Dotted(x.major, Dotted(x.minor, x.patch + RenderSuffix(x.suffix)));
    assert s0[0] == x.major[0];
    LeadOf(x.lead, s0);
    NumbersComplete(x);
  }

  /** The body of a version never ends in a line end. */
  lemma BodyEnd(x: Shape)
    requires InGrammar(x)
    ensures var s := RenderBody(x); s != "" && s[|s| - 1] != '\n'
  {
    var s := RenderBody(x);
    var s2 := x.patch + RenderSuffix(x.suffix);
    assert s[|s| - 1] == s2[|s2| - 1];
    match x.suffix
    case Plain => assert s2 == x.patch;
    case Pre(name) => NamesArePlain(name);
    case PreCounter(name, digits) => assert s2[|s2| - 1] == digits[|digits| - 1];
  }

  /** Every string of the grammar is accepted, and taken apart in the only way there is. */
  lemma ParseShapeComplete(x: Shape)
    requires InGrammar(x)
    ensures ParseShape(Render(x)) == Some(x)
  {
    BodyEnd(x);
    ParseBodyComplete(x);
    ChompOf(RenderBody(x), x.newline);
  }

  // ---------------------------------------------------------------- round trip

  /** The pre-release index has a name, and a counter only comes with a pre-release. */
  predicate Canonical(v: Version) {
    v.pre <= 4 && (v.pre == 0 ==> v.counter == 0)
  }

  function ShapeOf(v: Version): Shape {
    Shape("v", Decimal(v.major), Decimal(v.minor), Decimal(v.patch),
          if v.pre == 0 then Plain
          else if v.counter == 0 then Pre(PreName(v.pre))
          else PreCounter(PreName(v.pre), Decimal(v.counter)), false)
  }

  lemma NamesDiffer(a: Byte, b: Byte)
    requires 1 <= a < b <= 4
    ensures PreName(a) != PreName(b)
  {
    assert "alpha"[0] == 'a' && "beta"[0] == 'b' && "rc"[0] == 'r' && "dev"[0] == 'd';
  }

  lemma {:induction false} FindNameFrom(pre: Byte, k: Byte)
    requires 1 <= k <= pre <= 4
    ensures FindName(PreName(pre), k) == pre
    decreases pre - k
  {
    if k < pre {
      NamesDiffer(k, pre);
      FindNameFrom(pre, k + 1);
    }
  }

  lemma NameIndex(pre: Byte)
    requires 1 <= pre <= 4
    ensures PreIndex(PreName(pre)) == pre
  {
    PreNamesArePlain(pre);
    LowerName(PreName(pre));
    FindNameFrom(pre, 1);
  }

  lemma LowerName(s: string)
    requires forall i :: 0 <= i < |s| ==> 'a' <= s[i] <= 'z'
    ensures Lower(s) == s
  {
  }

  /** The left-to-right concatenation of the printer, regrouped. */
  lemma Regroup(a: string, b: string, c: string, d: string, e: string)
    ensures "v" + a + "." + b + "." + c + d + e == "v" + Dotted(a, Dotted(b, c + (d + e)))
  {
  }

  lemma PrintedSuffix(v: Version)
    requires Canonical(v)
    ensures PrintedPre(v) + PrintedCounter(v) == RenderSuffix(ShapeOf(v).suffix)
  {
    if v.pre != 0 {
      SuffixText(PreName(v.pre), PrintedCounter(v));
    }
  }

  lemma SuffixText(name: string, behind: string)
    ensures "-" + name + behind == "-" + (name + behind)
  {
  }

  lemma PrintIsRender(v: Version)
    requires Canonical(v)
    ensures Print(v) == Render(ShapeOf(v))
  {
    PrintedSuffix(v);
    Regroup(Decimal(v.major), Decimal(v.minor), Decimal(v.patch), PrintedPre(v), PrintedCounter(v));
  }

  lemma ShapeOfBytes(v: Version)
    requires Canonical(v)
    ensures InGrammar(ShapeOf(v)) && ShapeBytes(ShapeOf(v)) == Bytes(v)
  {
    ValueOfDecimal(v.major);
    ValueOfDecimal(v.minor);
    ValueOfDecimal(v.patch);
    ValueOfDecimal(v.counter);
    if v.pre != 0 {
      NameIndex(v.pre);
    }
  }

  /** Every version the parser yields is canonical. */
  lemma ParsedIsCanonical(s: string)
    requires Parse(s).Bytes?
    ensures Canonical(Parse(s).v)
  {
    ParseShapeSound(s);
  }

  /** Parsing what was printed gives the bytes back exactly for the canonical versions. */
  lemma PrintThenParse(v: Version)
    ensures Parse(Print(v)) == Bytes(v) <==> Canonical(v)
  {
    if Canonical(v) {
      PrintIsRender(v);
      ShapeOfBytes(v);
      ParseShapeComplete(ShapeOf(v));
    } else if Parse(Print(v)).Bytes? {
      ParsedIsCanonical(Print(v));
    }
  }

  /** Printing what was parsed is a normal form: it stands for the same bytes, and printing
      and parsing again changes nothing. */
  lemma NormalForm(s: string)
    requires Parse(s).Bytes?
    ensures var n := Print(Parse(s).v); Parse(n) == Parse(s) && Print(Parse(n).v) == n
  {
    ParsedIsCanonical(s);
    PrintThenParse(Parse(s).v);
  }

  /** `match_embedded`: byte equality. For canonical versions it is equality of what is shown. */
  lemma ShownEqualIffMatch(device: Version, embedded: Version)
    requires Canonical(device) && Canonical(embedded)
    ensures Print(device) == Print(embedded) <==> device == embedded
  {
    PrintThenParse(device);
    PrintThenParse(embedded);
  }

  /** A release version with a stray counter prints a string the build does not accept. */
  lemma StrayCounterIsLost()
    ensures Parse(Print(Version(1, 0, 2, 0, 5))) != Bytes(Version(1, 0, 2, 0, 5))
  {
    PrintThenParse(Version(1, 0, 2, 0, 5));
  }

  // ---------------------------------------------------------------- names and bytes

  /** The most significant digit comes first. */
  lemma PlaceValue(s: string, c: char, n: nat)
    requires Digits(s) && IsDigit(c)
    ensures Digits(s + [c]) && Value(s + [c]) == Value(s) * 10 + (c - '0') as nat
    ensures n < 10 ==> Decimal(n) == ['0' + n as char]
    ensures n >= 10 ==> Decimal(n) == Decimal(n / 10) + ['0' + (n % 10) as char]
  {
    assert (s + [c])[..|s|] == s;
  }

  /** Which byte belongs to which name, in any letter case. */
  lemma BytesOfNames(name: string)
    ensures PreIndex(name) == (if Lower(name) == "alpha" then 1 else if Lower(name) == "beta" then 2
                               else if Lower(name) == "rc" then 3 else if Lower(name) == "dev" then 4 else 0)
  {
    var low := Lower(name);
    assert "alpha"[0] == 'a' && "beta"[0] == 'b' && "rc"[0] == 'r' && "dev"[0] == 'd';
    assert FindName(low, 5) == 0;
    assert FindName(low, 4) == if low == "dev" then 4 else 0;
    assert FindName(low, 3) == if low == "rc" then 3 else FindName(low, 4);
    assert FindName(low, 2) == if low == "beta" then 2 else FindName(low, 3);
    assert FindName(low, 1) == if low == "alpha" then 1 else FindName(low, 2);
  }

  /** The same letters, each in either case; `low` is in lower case. */
  predicate SameLetters(name: string, low: string) {
    |name| == |low| && forall i :: 0 <= i < |name| ==> name[i] == low[i] || name[i] as int + 32 == low[i] as int
  }

  predicate Named(name: string, pre: Byte) {
    || (pre == 1 && SameLetters(name, "alpha")) || (pre == 2 && SameLetters(name, "beta"))
    || (pre == 3 && SameLetters(name, "rc")) || (pre == 4 && SameLetters(name, "dev"))
  }

  lemma LowerLetters(name: string, low: string)
    requires SameLetters(name, low) && forall i :: 0 <= i < |low| ==> 'a' <= low[i] <= 'z'
    ensures Lower(name) == low
  {
    forall i | 0 <= i < |name|
      ensures Lower(name)[i] == low[i]
    {
      assert Lower(name)[i] == LowerChar(name[i]);
    }
  }

  lemma NamedIndex(name: string, pre: Byte)
    requires Named(name, pre)
    ensures PreIndex(name) == pre
  {
    BytesOfNames(name);
    if pre == 1 {
      LowerLetters(name, "alpha");
    } else if pre == 2 {
      LowerLetters(name, "beta");
    } else if pre == 3 {
      LowerLetters(name, "rc");
    } else {
      LowerLetters(name, "dev");
    }
  }

  /** An optional v or V, three numbers up to 255 with dots between, and the rest. */
  predicate Numbers(lead: string, a: string, b: string, c: string) {
    && (lead == "" || lead == "v" || lead == "V") && Number(a) && Number(b) && Number(c)
    && Value(a) < 256 && Value(b) < 256 && Value(c) < 256
  }

  lemma FlatBody(lead: string, a: string, b: string, c: string, suffix: string)
    ensures lead + a + "." + b + "." + c + suffix == lead + Dotted(a, Dotted(b, c + suffix))
  {
  }

  lemma ParsesWithSuffix(lead: string, a: string, b: string, c: string, x: Suffix)
    requires Numbers(lead, a, b, c) && GoodSuffix(x)
    ensures Parse(lead + a + "." + b + "." + c + RenderSuffix(x)) == ShapeBytes(Shape(lead, a, b, c, x, false))
  {
    var shape := Shape(lead, a, b, c, x, false);
    ParseShapeComplete(shape);
    FlatBody(lead, a, b, c, RenderSuffix(x));
  }

  lemma PlainBytes(lead: string, a: string, b: string, c: string)
    requires Numbers(lead, a, b, c)
    ensures Parse(lead + a + "." + b + "." + c) == Bytes(Version(Value(a), Value(b), Value(c), 0, 0))
  {
    ParsesWithSuffix(lead, a, b, c, Plain);
    assert lead + a + "." + b + "." + c + "" == lead + a + "." + b + "." + c;
  }

  lemma NameBytes(lead: string, a: string, b: string, c: string, name: string, pre: Byte)
    requires Numbers(lead, a, b, c) && Named(name, pre)
    ensures Parse(lead + a + "." + b + "." + c + ("-" + name)) == Bytes(Version(Value(a), Value(b), Value(c), pre, 0))
  {
    NamedIndex(name, pre);
    ParsesWithSuffix(lead, a, b, c, Pre(name));
    assert name + "" == name;
  }

  lemma CounterBytes(lead: string, a: string, b: string, c: string, name: string, pre: Byte, n: string)
    requires Numbers(lead, a, b, c) && Named(name, pre) && Number(n) && Value(n) < 256
    ensures Parse(lead + a + "." + b + "." + c + ("-" + (name + ("." + n)))) ==
              Bytes(Version(Value(a), Value(b), Value(c), pre, Value(n)))
  {
    NamedIndex(name, pre);
    var x := PreCounter(name, n);
    ParsesWithSuffix(lead, a, b, c, x);
    assert Behind(x) == "." + n;
    assert RenderSuffix(x) == "-" + (name + ("." + n));
    CounterShape(Shape(lead, a, b, c, x, false), pre);
  }

  lemma CounterShape(x: Shape, pre: Byte)
    requires Numbers(x.lead, x.major, x.minor, x.patch) && x.suffix.PreCounter?
    requires PreIndex(x.suffix.name) == pre && Number(x.suffix.digits) && Value(x.suffix.digits) < 256
    ensures ShapeBytes(x) == Bytes(Version(Value(x.major), Value(x.minor), Value(x.patch), pre, Value(x.suffix.digits)))
  {
  }

  /** A string of the grammar has bytes if and only if all its numbers fit in one. */
  lemma OutOfRangeIff(x: Shape)
    requires InGrammar(x)
    ensures Parse(Render(x)) != NoMatch
    ensures Parse(Render(x)).Bytes? <==>
              && Value(x.major) < 256 && Value(x.minor) < 256 && Value(x.patch) < 256
              && (x.suffix.PreCounter? ==> Value(x.suffix.digits) < 256)
  {
    ParseShapeComplete(x);
  }

  /** From the string itself: numbers go to their bytes in order, "-alpha", "-beta", "-rc" and
      "-dev" to 1, 2, 3 and 4 in any letter case, and a number behind the name to the last. */
  lemma ParsesByName(lead: string, a: string, b: string, c: string, name: string, pre: Byte, n: string)
    requires Numbers(lead, a, b, c) && Named(name, pre) && Number(n) && Value(n) < 256
    ensures Parse(lead + a + "." + b + "." + c) == Bytes(Version(Value(a), Value(b), Value(c), 0, 0))
    ensures Parse(lead + a + "." + b + "." + c + ("-" + name)) == Bytes(Version(Value(a), Value(b), Value(c), pre, 0))
    ensures Parse(lead + a + "." + b + "." + c + ("-" + (name + ("." + n)))) ==
              Bytes(Version(Value(a), Value(b), Value(c), pre, Value(n)))
  {
    PlainBytes(lead, a, b, c);
    NameBytes(lead, a, b, c, name, pre);
    CounterBytes(lead, a, b, c, name, pre, n);
  }

  predicate StandsAt(s: string, t: string, k: int) {
    0 <= k && k + |t| <= |s| && s[k..k + |t|] == t
  }

  predicate Contains(s: string, t: string) {
    exists k :: 0 <= k <= |s| && StandsAt(s, t, k)
  }

  function PrintedHead(v: Version): string {
    "v" + Decimal(v.major) + "." + Decimal(v.minor) + "." + Decimal(v.patch)
  }

  lemma DashOnlyBeforeName(v: Version, k: nat)
    requires k < |Print(v)| && Print(v)[k] == '-'
    ensures k == |PrintedHead(v)| && v.pre != 0
  {
    var head := PrintedHead(v);
    assert forall i :: 0 <= i < |head| ==> head[i] != '-';
    assert forall i :: 0 <= i < |PrintedCounter(v)| ==> PrintedCounter(v)[i] != '-';
    assert Print(v) == head + PrintedPre(v) + PrintedCounter(v);
    if v.pre != 0 && k > |head| {
      NameHasNoDash(v.pre);
    }
  }

  lemma NameHasNoDash(pre: Byte)
    ensures forall i :: 0 <= i < |PreName(pre)| ==> PreName(pre)[i] != '-'
  {
  }

  lemma StandsBehind(head: string, t: string, behind: string)
    ensures StandsAt(head + (t + behind), t, |head|)
  {
    var s := head + (t + behind);
    assert s[|head|..] == t + behind;
    assert s[|head|..|head| + |t|] == (t + behind)[..|t|];
  }

  /** What follows the numbers: the name, if there is one, behind a dash. */
  lemma PrintedTail(v: Version)
    ensures var s, at := Print(v), |PrintedHead(v)|;
            && (v.pre == 1 ==> StandsAt(s, "-alpha", at))
            && (v.pre == 2 ==> StandsAt(s, "-beta", at))
            && (v.pre == 3 ==> StandsAt(s, "-rc", at))
            && (v.pre == 4 ==> StandsAt(s, "-dev", at))
            && (v.pre > 4 && at + 1 < |s| ==> s[at + 1] == '.')
  {
    var head, behind := PrintedHead(v), PrintedCounter(v);
    assert Print(v) == head + (PrintedPre(v) + behind);
    StandsBehind(head, PrintedPre(v), behind);
    if v.pre == 1 {
      assert PrintedPre(v) == "-alpha";
    } else if v.pre == 2 {
      assert PrintedPre(v) == "-beta";
    } else if v.pre == 3 {
      assert PrintedPre(v) == "-rc";
    } else if v.pre == 4 {
      assert PrintedPre(v) == "-dev";
    } else if v.pre > 4 {
      assert PrintedPre(v) == "-";
    }
  }

  lemma NameAfterDash(v: Version, t: string)
    requires |t| > 1 && t[0] == '-' && Contains(Print(v), t)
    ensures v.pre != 0 && |PrintedHead(v)| + 1 < |Print(v)| && Print(v)[|PrintedHead(v)| + 1] == t[1]
  {
    var s := Print(v);
    var k :| 0 <= k <= |s| && StandsAt(s, t, k);
    assert s[k..k + |t|][0] == s[k] && s[k..k + |t|][1] == s[k + 1];
    DashOnlyBeforeName(v, k);
  }

  lemma LetterAfterDash(v: Version)
    requires 1 <= v.pre && |PrintedHead(v)| + 1 < |Print(v)|
    ensures Print(v)[|PrintedHead(v)| + 1] ==
              if v.pre == 1 then 'a' else if v.pre == 2 then 'b' else if v.pre == 3 then 'r' else if v.pre == 4 then 'd' else '.'
  {
    PrintedTail(v);
    var s, at := Print(v), |PrintedHead(v)|;
    assert v.pre == 1 ==> s[at..at + 6][1] == s[at + 1];
    assert v.pre == 2 ==> s[at..at + 5][1] == s[at + 1];
    assert v.pre == 3 ==> s[at..at + 3][1] == s[at + 1];
    assert v.pre == 4 ==> s[at..at + 4][1] == s[at + 1];
  }

  lemma ContainsOnly(v: Version, t: string, pre: Byte)
    requires (pre == 1 && t == "-alpha") || (pre == 2 && t == "-beta") || (pre == 3 && t == "-rc") || (pre == 4 && t == "-dev")
    ensures Contains(Print(v), t) <==> v.pre == pre
  {
    if v.pre == pre {
      PrintedTail(v);
      assert StandsAt(Print(v), t, |PrintedHead(v)|);
    }
    if Contains(Print(v), t) {
      NameAfterDash(v, t);
      LetterAfterDash(v);
    }
  }

  /** A printed version contains "-alpha", "-beta", "-rc" or "-dev" exactly when its fourth byte
      is 1, 2, 3 or 4. */
  lemma PrintsByName(v: Version)
    ensures Contains(Print(v), "-alpha") <==> v.pre == 1
    ensures Contains(Print(v), "-beta") <==> v.pre == 2
    ensures Contains(Print(v), "-rc") <==> v.pre == 3
    ensures Contains(Print(v), "-dev") <==> v.pre == 4
  {
    ContainsOnly(v, "-alpha", 1);
    ContainsOnly(v, "-beta", 2);
    ContainsOnly(v, "-rc", 3);
    ContainsOnly(v, "-dev", 4);
  }
}
