/**
 The name of an import's copy of a dataplane endpoint slice, from which the import and the slice are
 read back: a prefix, the length of the import name, the import name, and the slice name.
 */
module SliceName {
  import opened Common
  import opened Naming

  const PREFIX := "clusterlink"

  // ---------------------------------------------------------------- decimals

  function Digit(d: nat): (c: char)
    requires d < 10
    ensures '0' <= c <= '9'
  {
    '0' + d as char
  }

  function DigitValue(c: char): (d: nat)
    requires '0' <= c <= '9'
    ensures d < 10
  {
    (c - '0') as nat
  }

  function Print(n: nat): (s: string)
    ensures s != [] && forall c :: c in s ==> '0' <= c <= '9'
  {
    if n < 10 then [Digit(n)] else Print(n / 10) + [Digit(n % 10)]
  }

  /** The value of a string of digits; absent if some character is none. */
  function DigitsValue(s: string): Option<nat> {
    if s == [] then Some(0)
    else
      var last := s[|s| - 1];
      match DigitsValue(s[..|s| - 1])
      case Some(v) => if '0' <= last <= '9' then Some(10 * v + DigitValue(last)) else None
      case None => None
  }

  /** A decimal integer with an optional sign. */
  function Atoi(s: string): Option<int> {
    var digits := if s != [] && (s[0] == '+' || s[0] == '-') then s[1..] else s;
    if digits == [] then None
    else match DigitsValue(digits)
      case None => None
      case Some(v) => Some(if s[0] == '-' then -(v as int) else v as int)
  }

  lemma {:induction false} PrintValue(n: nat)
    ensures DigitsValue(Print(n)) == Some(n)
  {
    var s := Print(n);
    if n < 10 {
      assert s[..0] == [];
    } else {
      PrintValue(n / 10);
      assert s[..|s| - 1] == Print(n / 10);
    }
  }

  lemma AtoiPrint(n: nat)
    ensures Atoi(Print(n)) == Some(n)
  {
    PrintValue(n);
    assert Print(n)[0] in Print(n);
  }

  // ---------------------------------------------------------------- the codec

  function Join3(a: string, b: string, c: string): string {
    a + ['-'] + (b + ['-'] + c)
  }

  function Get(imp: string, slice: string): string {
    Join3(PREFIX, Print(|imp|), Pair(imp, '-', slice))
  }

  function Pair(imp: string, separator: char, slice: string): string {
    imp + [separator] + slice
  }

  /** The three parts before, between and after the first two dashes. */
  function Split3(s: string): Option<(string, string, string)> {
    var (a, rest) := Cut(s, '-');
    match rest
    case None => None
    case Some(r) =>
      var (b, c) := Cut(r, '-');
      if c.None? then None else Some((a, b, c.value))
  }

  function Parse(s: string): Option<(string, string)> {
    match Split3(s)
    case None => None
    case Some((a, b, c)) =>
      if a != PREFIX then None
      else match Atoi(b)
        case None => None
        case Some(n) =>
          if n <= 0 || n >= |c| then None
          else if c[n + 1..] == "" then None
          else Some((c[..n], c[n + 1..]))
  }

  lemma SplitJoin(a: string, b: string, c: string)
    requires '-' !in a && '-' !in b
    ensures Split3(Join3(a, b, c)) == Some((a, b, c))
  {
    CutAt(a, '-', b + ['-'] + c);
    CutAt(b, '-', c);
  }

  lemma JoinSplit(s: string)
    requires Split3(s).Some?
    ensures var (a, b, c) := Split3(s).value; Join3(a, b, c) == s
  {
    var i := IndexOf(s, '-');
    CutJoins(s);
    CutJoins(s[i + 1..]);
  }

  lemma CutJoins(s: string)
    requires Cut(s, '-').1.Some?
    ensures Cut(s, '-').0 + ['-'] + Cut(s, '-').1.value == s
  {
  }

  lemma SplitGet(imp: string, slice: string)
    ensures Split3(Get(imp, slice)) == Some((PREFIX, Print(|imp|), Pair(imp, '-', slice)))
  {
    assert '-' !in PREFIX;
    SplitJoin(PREFIX, Print(|imp|), Pair(imp, '-', slice));
  }

  lemma PairSlices(imp: string, separator: char, slice: string)
    ensures var c := Pair(imp, separator, slice);
            |c| == |imp| + 1 + |slice| && c[..|imp|] == imp && c[|imp|] == separator && c[|imp| + 1..] == slice
  {
  }

  /** Parsing undoes building exactly when neither name is empty, dashes and all. */
  lemma ParseGet(imp: string, slice: string)
    ensures Parse(Get(imp, slice)) == Some((imp, slice)) <==> imp != "" && slice != ""
  {
    SplitGet(imp, slice);
    AtoiPrint(|imp|);
    PairSlices(imp, '-', slice);
  }

  lemma GetInjective(imp: string, slice: string, imp': string, slice': string)
    requires imp != "" && slice != "" && imp' != "" && slice' != ""
    requires Get(imp, slice) == Get(imp', slice')
    ensures imp == imp' && slice == slice'
  {
    ParseGet(imp, slice);
    ParseGet(imp', slice');
  }

  lemma GetIsLonger(imp: string, slice: string)
    ensures |Get(imp, slice)| > |slice|
  {
  }

  lemma ParseIsShorter(s: string)
    requires Parse(s).Some?
    ensures |Parse(s).value.1| < |s|
  {
    JoinSplit(s);
  }

  /**
   Not every name that parses is one that was built: the length may be written differently and the
   character after the import name is not looked at. Exactly when both are as built, building
   undoes parsing.
   */
  lemma GetParse(s: string)
    requires Parse(s).Some?
    ensures var (imp, slice) := Parse(s).value;
            var parts := Split3(s).value;
            Get(imp, slice) == s <==> parts.1 == Print(|imp|) && parts.2[|imp|] == '-'
  {
    var (imp, slice) := Parse(s).value;
    var (a, b, c) := Split3(s).value;
    ParseParts(s);
    JoinSplit(s);
    JoinEqual(b, Print(|imp|), c, imp, slice);
  }

  lemma ParseParts(s: string)
    requires Parse(s).Some?
    ensures var (imp, slice) := Parse(s).value;
            var (a, b, c) := Split3(s).value;
            && a == PREFIX && '-' !in b && |c| > |imp| && c == Pair(imp, c[|imp|], slice)
  {
    var (a, b, c) := Split3(s).value;
    CutClean(Cut(s, '-').1.value);
    PairAt(c, Atoi(b).value);
  }

  lemma CutClean(s: string)
    requires Cut(s, '-').1.Some?
    ensures '-' !in Cut(s, '-').0
  {
  }

  lemma PairAt(c: string, n: nat)
    requires n < |c|
    ensures c == Pair(c[..n], c[n], c[n + 1..])
  {
  }

  lemma JoinEqual(b: string, b': string, c: string, imp: string, slice: string)
    requires '-' !in b && '-' !in b' && |c| > |imp| && c == Pair(imp, c[|imp|], slice)
    ensures Join3(PREFIX, b, c) == Join3(PREFIX, b', Pair(imp, '-', slice)) <==> b == b' && c[|imp|] == '-'
  {
    assert '-' !in PREFIX;
    SplitJoin(PREFIX, b, c);
    SplitJoin(PREFIX, b', Pair(imp, '-', slice));
    PairSlices(imp, '-', slice);
  }

  /** A name nobody built parses like one that was. */
  lemma NonCanonicalParses()
    ensures var s := "clusterlink-01-a.b"; Parse(s) == Some(("a", "b")) && Get("a", "b") != s
  {
    JoinedParses();
    JoinedSpelled();
  }

  lemma JoinedSpelled()
    ensures Join3(PREFIX, "01", "a.b") == "clusterlink-01-a.b"
  {
  }

  lemma JoinedParses()
    ensures var s := Join3(PREFIX, "01", "a.b"); Parse(s) == Some(("a", "b")) && Get("a", "b") != s
  {
    assert '-' !in PREFIX && '-' !in "01";
    SplitJoin(PREFIX, "01", "a.b");
    OneWithZero();
    assert "a.b"[..1] == "a" && "a.b"[2..] == "b";
    GetParse(Join3(PREFIX, "01", "a.b"));
    assert Print(1) == [Digit(1)];
  }

  lemma OneWithZero()
    ensures Atoi("01") == Some(1)
  {
    assert "01"[..1] == "0" && "0"[..0] == "";
    assert DigitsValue("0") == Some(0);
  }
}
