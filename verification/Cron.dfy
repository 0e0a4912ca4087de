/**
 The cron recogniser of `CronUtil`: its regular expression, read by the usual meaning of alternation and
 concatenation, against a parser and a printer of five-field trees.
 */
module Cron {
  import opened Wrappers
  import opened Numerals

  // ---------------------------------------------------------------- the regular expression

  /** Star-free regular expressions: a character range, alternation, concatenation. */
  datatype Regex = Chars(lo: char, hi: char) | Alt(left: Regex, right: Regex) | Cat(first: Regex, second: Regex)

  /** Whether the whole of s matches, as between `^` and `$`. */
  predicate Accepts(r: Regex, s: string)
    decreases r
  {
    match r
    case Chars(lo, hi) => |s| == 1 && lo <= s[0] <= hi
    case Alt(a, b) => Accepts(a, s) || Accepts(b, s)
    case Cat(a, b) => exists i | 0 <= i <= |s| :: Accepts(a, s[..i]) && Accepts(b, s[i..])
  }

  datatype CronUnit = Minute | Hour | Day | Month | Weekday

  const UNITS := [Minute, Hour, Day, Month, Weekday]

  function One(c: char): Regex {
    Chars(c, c)
  }

  function Two(c: char, lo: char, hi: char): Regex {
    Cat(One(c), Chars(lo, hi))
  }

  /** The numbers the expression spells out for each field. */
  function NumberRegex(u: CronUnit): Regex {
    match u
    case Minute => Alt(Chars('0', '9'), Alt(Two('1', '0', '9'), Alt(Two('2', '0', '9'),
                       Alt(Two('3', '0', '9'), Alt(Two('4', '0', '9'), Two('5', '0', '9'))))))
    case Hour => Alt(Chars('0', '9'), Alt(Two('1', '0', '9'), Two('2', '0', '3')))
    case Day => Alt(Chars('1', '9'), Alt(Two('1', '0', '9'), Alt(Two('2', '0', '9'), Two('3', '0', '1'))))
    case Month => Alt(Chars('1', '9'), Two('1', '0', '2'))
    case Weekday => Chars('0', '6')
  }

  /** A star, a number, or a star, a slash and a number. */
  function FieldOf(number: Regex): Regex {
    Alt(One('*'), Alt(number, Cat(One('*'), Cat(One('/'), number))))
  }

  function FieldRegex(u: CronUnit): Regex {
    FieldOf(NumberRegex(u))
  }

  /** The fields of units with one space between them. */
  function FieldsRegex(units: seq<CronUnit>): Regex
    requires units != []
  {
    if |units| == 1 then FieldRegex(units[0])
    else Cat(FieldRegex(units[0]), Cat(One(' '), FieldsRegex(units[1..])))
  }

  predicate IsValidCronExpression(s: string) {
    s != "" && Accepts(FieldsRegex(UNITS), s)
  }

  // ---------------------------------------------------------------- trees, printer, parser

  datatype Field = Any | Exactly(n: nat) | Every(n: nat)

  function Lowest(u: CronUnit): nat {
    if u.Day? || u.Month? then 1 else 0
  }

  function Highest(u: CronUnit): nat {
    match u
    case Minute => 59
    case Hour => 23
    case Day => 31
    case Month => 12
    case Weekday => 6
  }

  predicate FieldInRange(f: Field, u: CronUnit) {
    f.Any? || Lowest(u) <= f.n <= Highest(u)
  }

  predicate InRange(tree: seq<Field>, units: seq<CronUnit>) {
    |tree| == |units| && forall i :: 0 <= i < |units| ==> FieldInRange(tree[i], units[i])
  }

  function PrintField(f: Field): string {
    match f
    case Any => "*"
    case Exactly(n) => Decimal(n)
    case Every(n) => "*/" + Decimal(n)
  }

  function Print(tree: seq<Field>): string {
    if tree == [] then ""
    else if |tree| == 1 then PrintField(tree[0])
    else PrintField(tree[0]) + " " + Print(tree[1..])
  }

  /** A number of the unit, written without leading zeros. */
  predicate IsNumber(s: string, u: CronUnit) {
    Canonical(s) && Lowest(u) <= ParseDecimal(s) <= Highest(u)
  }

  function ParseField(s: string, u: CronUnit): Option<Field> {
    if s == "*" then Some(Any)
    else if "*/" <= s then (if IsNumber(s[2..], u) then Some(Every(ParseDecimal(s[2..]))) else None)
    else if IsNumber(s, u) then Some(Exactly(ParseDecimal(s)))
    else None
  }

  /** The position of the first space, or |s|. */
  function FirstSpace(s: string): (n: nat)
    ensures n <= |s| && ' ' !in s[..n] && (n < |s| ==> s[n] == ' ')
  {
    if s == "" || s[0] == ' ' then 0
    else
      var n := FirstSpace(s[1..]);
      assert s[..n + 1] == [s[0]] + s[1..][..n];
      n + 1
  }

  function Parse(s: string, units: seq<CronUnit>): Option<seq<Field>>
    requires units != []
    decreases |units|
  {
    if |units| == 1 then
      match ParseField(s, units[0])
      case None => None
      case Some(f) => Some([f])
    else
      var n := FirstSpace(s);
      if n == |s| then None
      else
        match (ParseField(s[..n], units[0]), Parse(s[n + 1..], units[1..]))
        case (Some(f), Some(rest)) => Some([f] + rest)
        case _ => None
  }

  // ---------------------------------------------------------------- one field

  /** A single character in front is read off the front. */
  lemma AcceptsOneThen(c: char, r: Regex, s: string)
    ensures Accepts(Cat(One(c), r), s) <==> s != "" && s[0] == c && Accepts(r, s[1..])
  {
    if Accepts(Cat(One(c), r), s) {
      var i :| 0 <= i <= |s| && Accepts(One(c), s[..i]) && Accepts(r, s[i..]);
      assert i == 1 && s[..1][0] == s[0];
    }
    if s != "" && s[0] == c && Accepts(r, s[1..]) {
      assert Accepts(One(c), s[..1]);
    }
  }

  lemma AcceptsTwo(c: char, lo: char, hi: char, s: string)
    ensures Accepts(Two(c, lo, hi), s) <==> |s| == 2 && s[0] == c && lo <= s[1] <= hi
  {
    AcceptsOneThen(c, Chars(lo, hi), s);
  }

  /** Canonical numerals of one and two digits, by their characters. */
  lemma ShortNumerals(s: string)
    requires Canonical(s)
    ensures |s| == 1 ==> ParseDecimal(s) == DigitValue(s[0])
    ensures |s| == 2 ==> '1' <= s[0] && ParseDecimal(s) == 10 * DigitValue(s[0]) + DigitValue(s[1])
    ensures |s| >= 3 ==> ParseDecimal(s) >= 100
  {
    if |s| == 2 {
      assert s[..1] == [s[0]];
      assert ParseDecimal(s[..1]) == DigitValue(s[0]);
    } else if |s| >= 3 {
      LongNumeral(s);
    }
  }

  lemma {:induction false} LongNumeral(s: string)
    requires Canonical(s) && |s| >= 2
    ensures ParseDecimal(s) >= if |s| == 2 then 10 else 100
    decreases |s|
  {
    var front := s[..|s| - 1];
    assert forall c <- front :: c in s;
    if |s| == 2 {
      PositiveValue(front);
    } else {
      LongNumeral(front);
    }
  }

  /** The alternatives of NumberRegex, character by character. */
  predicate Alternative(u: CronUnit, s: string) {
    if |s| == 1 then
      (if u.Day? || u.Month? then '1' else '0') <= s[0] <= (if u.Weekday? then '6' else '9')
    else if |s| == 2 && !u.Weekday? then
      match u
      case Minute => '1' <= s[0] <= '5' && '0' <= s[1] <= '9'
      case Hour => (s[0] == '1' && '0' <= s[1] <= '9') || (s[0] == '2' && '0' <= s[1] <= '3')
      case Day => ('1' <= s[0] <= '2' && '0' <= s[1] <= '9') || (s[0] == '3' && '0' <= s[1] <= '1')
      case _ => s[0] == '1' && '0' <= s[1] <= '2'
    else false
  }

  lemma NumberRegexIsAlternative(u: CronUnit, s: string)
    ensures Accepts(NumberRegex(u), s) <==> Alternative(u, s)
  {
    match u {
      case Minute =>
        AcceptsTwo('1', '0', '9', s);
        AcceptsTwo('2', '0', '9', s);
        AcceptsTwo('3', '0', '9', s);
        AcceptsTwo('4', '0', '9', s);
        AcceptsTwo('5', '0', '9', s);
      case Hour =>
        AcceptsTwo('1', '0', '9', s);
        AcceptsTwo('2', '0', '3', s);
      case Day =>
        AcceptsTwo('1', '0', '9', s);
        AcceptsTwo('2', '0', '9', s);
        AcceptsTwo('3', '0', '1', s);
      case Month =>
        AcceptsTwo('1', '0', '2', s);
      case Weekday =>
    }
  }

  lemma AlternativeIsNumber(u: CronUnit, s: string)
    ensures Alternative(u, s) <==> IsNumber(s, u)
  {
    if Canonical(s) {
      ShortNumerals(s);
      assert forall i :: 0 <= i < |s| ==> s[i] in s;
    } else if |s| <= 2 {
      assert forall c <- s :: c == s[0] || c == s[1];
    }
  }

  /** The spelled-out alternatives are exactly the numbers of the unit. */
  lemma NumberRegexMeans(u: CronUnit, s: string)
    ensures Accepts(NumberRegex(u), s) <==> IsNumber(s, u)
  {
    NumberRegexIsAlternative(u, s);
    AlternativeIsNumber(u, s);
  }

  lemma FieldOfMeans(number: Regex, s: string)
    ensures Accepts(FieldOf(number), s) <==>
            s == "*" || Accepts(number, s) || ("*/" <= s && Accepts(number, s[2..]))
  {
    AcceptsOneThen('*', Cat(One('/'), number), s);
    if s != "" {
      AcceptsOneThen('/', number, s[1..]);
      if |s| > 1 {
        assert s[1..][1..] == s[2..];
      }
    }
  }

  lemma FieldRegexMeans(u: CronUnit, s: string)
    ensures Accepts(FieldRegex(u), s) <==> ParseField(s, u).Some?
  {
    var number := NumberRegex(u);
    FieldOfMeans(number, s);
    NumberRegexMeans(u, s);
    if "*/" <= s {
      NumberRegexMeans(u, s[2..]);
      assert s[0] in s;
      assert !Canonical(s);
    }
  }

  lemma ParsedFieldPrints(s: string, u: CronUnit)
    requires ParseField(s, u).Some?
    ensures FieldInRange(ParseField(s, u).value, u) && PrintField(ParseField(s, u).value) == s
  {
    match ParseField(s, u).value {
      case Any =>
      case Every(_) =>
        CanonicalIsPrinted(s[2..]);
        assert s == "*/" + s[2..];
      case Exactly(_) =>
        CanonicalIsPrinted(s);
    }
  }

  lemma PrintedFieldParses(f: Field, u: CronUnit)
    requires FieldInRange(f, u)
    ensures ParseField(PrintField(f), u) == Some(f)
  {
    match f {
      case Any =>
      case Every(n) =>
        DecimalRoundTrip(n);
        assert PrintField(f)[2..] == Decimal(n);
      case Exactly(n) =>
        DecimalRoundTrip(n);
        assert Decimal(n)[0] in Decimal(n);
    }
  }

  lemma NoSpaceInField(f: Field)
    ensures ' ' !in PrintField(f)
  {
    if !f.Any? {
      DecimalRoundTrip(f.n);
      assert ' ' !in Decimal(f.n);
    }
  }

  // ---------------------------------------------------------------- the whole expression

  lemma FirstSpaceIs(a: string, b: string)
    requires ' ' !in a
    ensures FirstSpace(a + " " + b) == |a|
    ensures (a + " " + b)[..|a|] == a && (a + " " + b)[|a| + 1..] == b
  {
    var s := a + " " + b;
    var n := FirstSpace(s);
    assert s[|a|] == ' ';
    assert forall i :: 0 <= i < |a| ==> s[i] == a[i] && a[i] in a;
    assert forall i :: 0 <= i < n ==> s[..n][i] == s[i] && s[..n][i] in s[..n];
  }

  /** Parsing inverts printing, and accepts nothing else: a string has at most one tree. */
  lemma ParseExactlyPrints(s: string, units: seq<CronUnit>, tree: seq<Field>)
    requires units != []
    ensures Parse(s, units) == Some(tree) <==> InRange(tree, units) && s == Print(tree)
  {
    if Parse(s, units) == Some(tree) {
      ParsedPrints(s, units);
    }
    if InRange(tree, units) {
      PrintedParses(tree, units);
    }
  }

  lemma {:induction false} ParsedPrints(s: string, units: seq<CronUnit>)
    requires units != [] && Parse(s, units).Some?
    ensures InRange(Parse(s, units).value, units) && Print(Parse(s, units).value) == s
    decreases |units|
  {
    if |units| == 1 {
      ParsedFieldPrints(s, units[0]);
    } else {
      var n, f, tail := ParseSplit(s, units);
      ParsedFieldPrints(s[..n], units[0]);
      ParsedPrints(s[n + 1..], units[1..]);
      InRangeCons(f, tail, units);
      PrintCons(f, tail);
      SplitAt(s, n);
    }
  }

  lemma SplitAt(s: string, n: nat)
    requires n < |s| && s[n] == ' '
    ensures s == s[..n] + " " + s[n + 1..] && s[n..][1..] == s[n + 1..]
  {
  }

  lemma ParseSplit(s: string, units: seq<CronUnit>) returns (n: nat, f: Field, tail: seq<Field>)
    requires |units| > 1 && Parse(s, units).Some?
    ensures n < |s| && s[n] == ' '
    ensures ParseField(s[..n], units[0]) == Some(f) && Parse(s[n + 1..], units[1..]) == Some(tail)
    ensures Parse(s, units) == Some([f] + tail)
  {
    n := FirstSpace(s);
    f, tail := ParseField(s[..n], units[0]).value, Parse(s[n + 1..], units[1..]).value;
  }

  lemma InRangeCons(f: Field, tail: seq<Field>, units: seq<CronUnit>)
    requires units != []
    ensures InRange([f] + tail, units) <==> FieldInRange(f, units[0]) && InRange(tail, units[1..])
  {
    if InRange([f] + tail, units) {
      assert forall i :: 0 <= i < |tail| ==> tail[i] == ([f] + tail)[i + 1];
    }
  }

  lemma PrintCons(f: Field, tail: seq<Field>)
    requires tail != []
    ensures Print([f] + tail) == PrintField(f) + " " + Print(tail)
  {
    assert ([f] + tail)[1..] == tail;
  }

  lemma {:induction false} PrintedParses(tree: seq<Field>, units: seq<CronUnit>)
    requires units != [] && InRange(tree, units)
    ensures Parse(Print(tree), units) == Some(tree)
    decreases |units|
  {
    if |units| == 1 {
      PrintedFieldParses(tree[0], units[0]);
      assert tree == [tree[0]];
    } else {
      var f, tail := tree[0], tree[1..];
      assert tree == [f] + tail;
      InRangeCons(f, tail, units);
      PrintedFieldParses(f, units[0]);
      NoSpaceInField(f);
      PrintedParses(tail, units[1..]);
      ParseJoined(PrintField(f), Print(tail), units, f, tail);
      PrintCons(f, tail);
    }
  }

  lemma ParseJoined(first: string, rest: string, units: seq<CronUnit>, f: Field, tail: seq<Field>)
    requires |units| > 1 && ' ' !in first
    requires ParseField(first, units[0]) == Some(f) && Parse(rest, units[1..]) == Some(tail)
    ensures Parse(first + " " + rest, units) == Some([f] + tail)
  {
    FirstSpaceIs(first, rest);
  }

  /** The regular expression accepts exactly what the parser parses. */
  lemma {:induction false} RegexIsParser(s: string, units: seq<CronUnit>)
    requires units != []
    ensures Accepts(FieldsRegex(units), s) <==> Parse(s, units).Some?
    decreases |units|
  {
    if |units| == 1 {
      FieldRegexMeans(units[0], s);
    } else {
      if Accepts(FieldsRegex(units), s) {
        AcceptedIsParsed(s, units);
      }
      if Parse(s, units).Some? {
        var n := FirstSpace(s);
        FieldRegexMeans(units[0], s[..n]);
        RegexIsParser(s[n + 1..], units[1..]);
        assert s[n..][1..] == s[n + 1..];
        AcceptsOneThen(' ', FieldsRegex(units[1..]), s[n..]);
      }
    }
  }

  lemma AcceptedIsParsed(s: string, units: seq<CronUnit>)
    requires |units| > 1 && Accepts(FieldsRegex(units), s)
    ensures Parse(s, units).Some?
    decreases |units|, 0
  {
    var i := AcceptedSplit(FieldRegex(units[0]), FieldsRegex(units[1..]), s);
    var first, rest := s[..i], s[i + 1..];
    FieldRegexMeans(units[0], first);
    ParsedFieldPrints(first, units[0]);
    NoSpaceInField(ParseField(first, units[0]).value);
    RegexIsParser(rest, units[1..]);
    ParseJoined(first, rest, units, ParseField(first, units[0]).value, Parse(rest, units[1..]).value);
  }

  lemma AcceptedSplit(first: Regex, rest: Regex, s: string) returns (i: nat)
    requires Accepts(Cat(first, Cat(One(' '), rest)), s)
    ensures i < |s| && s == s[..i] + " " + s[i + 1..]
    ensures Accepts(first, s[..i]) && Accepts(rest, s[i + 1..])
  {
    i :| 0 <= i <= |s| && Accepts(first, s[..i]) && Accepts(Cat(One(' '), rest), s[i..]);
    AcceptsOneThen(' ', rest, s[i..]);
    assert s[i] == s[i..][0];
    SplitAt(s, i);
  }

  /**
   A string is accepted exactly when it is the print of a five-field tree within the ranges, and that
   tree is the only one.
   */
  lemma RecogniserIsPrinterInverse(s: string)
    ensures IsValidCronExpression(s) <==> exists tree :: InRange(tree, UNITS) && s == Print(tree)
    ensures forall tree, tree' ::
              InRange(tree, UNITS) && InRange(tree', UNITS) && Print(tree) == Print(tree') ==> tree == tree'
  {
    RegexIsParser(s, UNITS);
    if IsValidCronExpression(s) {
      var tree := Parse(s, UNITS).value;
      ParseExactlyPrints(s, UNITS, tree);
    }
    if tree :| InRange(tree, UNITS) && s == Print(tree) {
      ParseExactlyPrints(s, UNITS, tree);
    }
    forall tree, tree' |
      InRange(tree, UNITS) && InRange(tree', UNITS) && Print(tree) == Print(tree')
      ensures tree == tree'
    {
      ParseExactlyPrints(Print(tree), UNITS, tree);
      ParseExactlyPrints(Print(tree), UNITS, tree');
    }
  }

  /** A star, or a number from lo to hi, alone or after a star and a slash, without leading zeros. */
  ghost predicate FieldBetween(s: string, lo: nat, hi: nat) {
    || s == "*"
    || exists n: nat :: lo <= n <= hi && (s == Decimal(n) || s == "*/" + Decimal(n))
  }

  lemma FieldBetweenExactly(s: string, u: CronUnit)
    ensures FieldBetween(s, Lowest(u), Highest(u)) <==> exists f :: FieldInRange(f, u) && s == PrintField(f)
  {
    if s == "*" {
      assert FieldInRange(Any, u) && s == PrintField(Any);
    }
    if n: nat :| Lowest(u) <= n <= Highest(u) && (s == Decimal(n) || s == "*/" + Decimal(n)) {
      assert FieldInRange(Exactly(n), u) && FieldInRange(Every(n), u);
      assert s == PrintField(Exactly(n)) || s == PrintField(Every(n));
    }
    if f :| FieldInRange(f, u) && s == PrintField(f) {
      assert f.Any? || (Lowest(u) <= f.n <= Highest(u) && (s == Decimal(f.n) || s == "*/" + Decimal(f.n)));
    }
  }

  /** Five fields with single spaces: minutes 0-59, hours 0-23, days 1-31, months 1-12, weekdays 0-6. */
  ghost predicate FiveFields(s: string, a: string, b: string, c: string, d: string, e: string) {
    && s == a + " " + (b + " " + (c + " " + (d + " " + e)))
    && FieldBetween(a, 0, 59) && FieldBetween(b, 0, 23) && FieldBetween(c, 1, 31)
    && FieldBetween(d, 1, 12) && FieldBetween(e, 0, 6)
  }

  /** Accepted are exactly the strings of five such fields. */
  lemma AcceptedExactly(s: string)
    ensures IsValidCronExpression(s) <==> exists a, b, c, d, e :: FiveFields(s, a, b, c, d, e)
  {
    if IsValidCronExpression(s) {
      var a, b, c, d, e := FieldsOf(s);
    }
    if a, b, c, d, e :| FiveFields(s, a, b, c, d, e) {
      var tree := TreeOf(a, b, c, d, e);
      PrintedIsValid(tree);
    }
  }

  lemma FieldsOf(s: string) returns (a: string, b: string, c: string, d: string, e: string)
    requires IsValidCronExpression(s)
    ensures FiveFields(s, a, b, c, d, e)
  {
    RecogniserIsPrinterInverse(s);
    var tree :| InRange(tree, UNITS) && s == Print(tree);
    var f0, f1, f2, f3, f4 := FieldsOfTree(tree);
    PrintOfFive(f0, f1, f2, f3, f4);
    a, b, c, d, e := PrintField(f0), PrintField(f1), PrintField(f2), PrintField(f3), PrintField(f4);
    PrintedBetween(f0, Minute);
    PrintedBetween(f1, Hour);
    PrintedBetween(f2, Day);
    PrintedBetween(f3, Month);
    PrintedBetween(f4, Weekday);
  }

  lemma FieldsOfTree(tree: seq<Field>) returns (a: Field, b: Field, c: Field, d: Field, e: Field)
    requires InRange(tree, UNITS)
    ensures tree == [a, b, c, d, e]
    ensures FieldInRange(a, Minute) && FieldInRange(b, Hour) && FieldInRange(c, Day)
    ensures FieldInRange(d, Month) && FieldInRange(e, Weekday)
  {
    a, b, c, d, e := tree[0], tree[1], tree[2], tree[3], tree[4];
  }

  lemma PrintedBetween(f: Field, u: CronUnit)
    requires FieldInRange(f, u)
    ensures FieldBetween(PrintField(f), Lowest(u), Highest(u))
  {
    FieldBetweenExactly(PrintField(f), u);
  }

  lemma TreeOf(a: string, b: string, c: string, d: string, e: string) returns (tree: seq<Field>)
    requires FieldBetween(a, 0, 59) && FieldBetween(b, 0, 23) && FieldBetween(c, 1, 31)
    requires FieldBetween(d, 1, 12) && FieldBetween(e, 0, 6)
    ensures InRange(tree, UNITS) && Print(tree) == a + " " + (b + " " + (c + " " + (d + " " + e)))
  {
    FieldBetweenExactly(a, Minute);
    FieldBetweenExactly(b, Hour);
    FieldBetweenExactly(c, Day);
    FieldBetweenExactly(d, Month);
    FieldBetweenExactly(e, Weekday);
    var f0 :| FieldInRange(f0, Minute) && a == PrintField(f0);
    var f1 :| FieldInRange(f1, Hour) && b == PrintField(f1);
    var f2 :| FieldInRange(f2, Day) && c == PrintField(f2);
    var f3 :| FieldInRange(f3, Month) && d == PrintField(f3);
    var f4 :| FieldInRange(f4, Weekday) && e == PrintField(f4);
    tree := [f0, f1, f2, f3, f4];
    FiveInRange(f0, f1, f2, f3, f4);
    PrintOfFive(f0, f1, f2, f3, f4);
  }

  lemma FiveInRange(a: Field, b: Field, c: Field, d: Field, e: Field)
    requires FieldInRange(a, Minute) && FieldInRange(b, Hour) && FieldInRange(c, Day)
    requires FieldInRange(d, Month) && FieldInRange(e, Weekday)
    ensures InRange([a, b, c, d, e], UNITS)
  {
  }

  // ---------------------------------------------------------------- shorthands

  const COMMON_CRON_EXPRESSIONS: seq<(string, string)> := [
    ("@yearly", "0 0 1 1 *"),
    ("@annually", "0 0 1 1 *"),
    ("@monthly", "0 0 1 * *"),
    ("@weekly", "0 0 * * 0"),
    ("@daily", "0 0 * * *"),
    ("@midnight", "0 0 * * *"),
    ("@hourly", "0 * * * *")
  ]

  const SHORTHANDS := ["@yearly", "@annually", "@monthly", "@weekly", "@daily", "@midnight", "@hourly"]

  /**
   What the shorthands mean, read by the parser: minute 0 of every hour, of midnight, of midnight on Sundays,
   on the first of a month, and on the first of January.
   */
  lemma ShorthandsMean(i: nat)
    requires i < 7
    ensures |COMMON_CRON_EXPRESSIONS| == 7 && COMMON_CRON_EXPRESSIONS[i].0 == SHORTHANDS[i]
    ensures Parse(COMMON_CRON_EXPRESSIONS[i].1, UNITS)
            == Some([Exactly(0),
                     if SHORTHANDS[i] == "@hourly" then Any else Exactly(0),
                     if SHORTHANDS[i] in {"@yearly", "@annually", "@monthly"} then Exactly(1) else Any,
                     if SHORTHANDS[i] in {"@yearly", "@annually"} then Exactly(1) else Any,
                     if SHORTHANDS[i] == "@weekly" then Exactly(0) else Any])
  {
    var tree := ExpansionTree(i);
    PrintedParses(tree, UNITS);
    ShorthandNames(i);
  }

  lemma ShorthandNames(i: nat)
    requires i < 7
    ensures SHORTHANDS[i] == "@hourly" <==> i == 6
    ensures SHORTHANDS[i] in {"@yearly", "@annually", "@monthly"} <==> i <= 2
    ensures SHORTHANDS[i] in {"@yearly", "@annually"} <==> i <= 1
    ensures SHORTHANDS[i] == "@weekly" <==> i == 3
  {
    assert "@yearly"[1] == 'y' && "@annually"[1] == 'a' && "@weekly"[1] == 'w' && "@daily"[1] == 'd' && "@hourly"[1] == 'h';
    assert "@monthly"[2] == 'o' && "@midnight"[2] == 'i' && "@monthly"[1] == 'm' && "@midnight"[1] == 'm';
  }

  /** Every shorthand expands to an accepted expression, and no shorthand is one itself. */
  lemma ShorthandsExpand(i: nat)
    requires i < |COMMON_CRON_EXPRESSIONS|
    ensures IsValidCronExpression(COMMON_CRON_EXPRESSIONS[i].1)
    ensures !IsValidCronExpression(COMMON_CRON_EXPRESSIONS[i].0)
  {
    var tree := ExpansionTree(i);
    PrintedIsValid(tree);
    NameStart(i);
    if IsValidCronExpression(COMMON_CRON_EXPRESSIONS[i].0) {
      ValidStart(COMMON_CRON_EXPRESSIONS[i].0);
    }
  }

  lemma PrintedIsValid(tree: seq<Field>)
    requires InRange(tree, UNITS)
    ensures IsValidCronExpression(Print(tree))
  {
    RecogniserIsPrinterInverse(Print(tree));
  }

  lemma NameStart(i: nat)
    requires i < |COMMON_CRON_EXPRESSIONS|
    ensures COMMON_CRON_EXPRESSIONS[i].0 != "" && COMMON_CRON_EXPRESSIONS[i].0[0] == '@'
  {
  }

  lemma ValidStart(s: string)
    requires IsValidCronExpression(s)
    ensures s[0] == '*' || IsDigit(s[0])
  {
    RegexIsParser(s, UNITS);
    ParsedPrints(s, UNITS);
    var first := Parse(s, UNITS).value[0];
    if first.Exactly? {
      DecimalRoundTrip(first.n);
      assert Decimal(first.n)[0] in Decimal(first.n);
    }
    assert PrintField(first) != "" && s[0] == PrintField(first)[0];
  }

  lemma ExpansionTree(i: nat) returns (tree: seq<Field>)
    requires i < |COMMON_CRON_EXPRESSIONS|
    ensures InRange(tree, UNITS) && Print(tree) == COMMON_CRON_EXPRESSIONS[i].1
    ensures tree == [Exactly(0), if i == 6 then Any else Exactly(0), if i <= 2 then Exactly(1) else Any,
                     if i <= 1 then Exactly(1) else Any, if i == 3 then Exactly(0) else Any]
  {
    var hour := if i == 6 then Any else Exactly(0);
    var day := if i <= 2 then Exactly(1) else Any;
    var month := if i <= 1 then Exactly(1) else Any;
    var weekday := if i == 3 then Exactly(0) else Any;
    tree := [Exactly(0), hour, day, month, weekday];
    PrintOfFive(Exactly(0), hour, day, month, weekday);
    FiveInRange(Exactly(0), hour, day, month, weekday);
    SmallFields();
  }

  lemma SmallFields()
    ensures PrintField(Any) == "*" && PrintField(Exactly(0)) == "0" && PrintField(Exactly(1)) == "1"
  {
  }

  lemma PrintOfFive(a: Field, b: Field, c: Field, d: Field, e: Field)
    ensures Print([a, b, c, d, e]) == PrintField(a) + " " + (PrintField(b) + " " + (PrintField(c) + " "
                                      + (PrintField(d) + " " + PrintField(e))))
  {
    assert [a, b, c, d, e][1..] == [b, c, d, e] && [b, c, d, e][1..] == [c, d, e];
    assert [c, d, e][1..] == [d, e] && [d, e][1..] == [e];
    assert Print([d, e]) == PrintField(d) + " " + Print([e]);
    assert Print([c, d, e]) == PrintField(c) + " " + Print([d, e]);
    assert Print([b, c, d, e]) == PrintField(b) + " " + Print([c, d, e]);
  }
}
