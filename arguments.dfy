/// The command line: `./ex2 FILENAME num_of_processes [-f]`, read with
/// `atoi`, and the choice between the serial, pipe and mmap modes.
module Arguments {

  /** The characters `isspace` accepts: space, `\t`, `\n`, `\v`, `\f`, `\r`. */
  predicate IsSpace(ch: char)
  {
    ch == ' ' || '\t' <= ch <= '\r'
  }

  predicate IsDigit(ch: char)
  {
    '0' <= ch <= '9'
  }

  predicate AllDigits(s: string)
  {
    forall i :: 0 <= i < |s| ==> IsDigit(s[i])
  }

  function SkipSpaces(s: string): string
  {
    if s != [] && IsSpace(s[0]) then SkipSpaces(s[1..]) else s
  }

  /** The longest prefix of `s` made of decimal digits. */
  function DigitPrefix(s: string): (d: string)
    ensures d <= s && AllDigits(d)
    ensures |d| < |s| ==> !IsDigit(s[|d|])
  {
    if s != [] && IsDigit(s[0]) then [s[0]] + DigitPrefix(s[1..]) else []
  }

  function DigitsValue(d: string): nat
    requires AllDigits(d)
  {
    if d == [] then 0 else DigitsValue(d[..|d| - 1]) * 10 + ((d[|d| - 1] as int) - ('0' as int))
  }

  /** `atoi`: leading white space, an optional sign, then as many digits as
      follow; anything else reads as 0. */
  function Atoi(s: string): (n: int)
    ensures var t := SkipSpaces(s); t != [] && t[0] == '-' ==> n <= 0
    ensures var t := SkipSpaces(s); !(t != [] && t[0] == '-') ==> n >= 0
    ensures var t := SkipSpaces(s); (t == [] || (t[0] != '-' && t[0] != '+' && !IsDigit(t[0]))) ==> n == 0
  {
    var t := SkipSpaces(s);
    if t != [] && t[0] == '-' then -(DigitsValue(DigitPrefix(t[1..])) as int)
    else if t != [] && t[0] == '+' then DigitsValue(DigitPrefix(t[1..]))
    else DigitsValue(DigitPrefix(t))
  }

  /** The decimal spelling of a natural number. */
  function Decimal(k: nat): (s: string)
    ensures s != [] && AllDigits(s)
  {
    var last := (('0' as int) + k % 10) as char;
    if k < 10 then [last] else Decimal(k / 10) + [last]
  }

  lemma {:induction false} DigitPrefixOfDigits(s: string)
    requires AllDigits(s)
    ensures DigitPrefix(s) == s
  {
    if s != [] {
      DigitPrefixOfDigits(s[1..]);
    }
  }

  lemma {:induction false} DigitsValueOfDecimal(k: nat)
    ensures DigitsValue(Decimal(k)) == k
  {
    if k >= 10 {
      DigitsValueOfDecimal(k / 10);
      var s := Decimal(k);
      assert s[..|s| - 1] == Decimal(k / 10);
    }
  }

  /** `atoi` reads back every count written in decimal. */
  lemma AtoiDecimal(k: nat)
    ensures Atoi(Decimal(k)) == k
  {
    var s := Decimal(k);
    assert SkipSpaces(s) == s;
    DigitPrefixOfDigits(s);
    DigitsValueOfDecimal(k);
  }

  /** ... and with a minus sign in front, its negation. */
  lemma AtoiNegativeDecimal(k: nat)
    ensures Atoi("-" + Decimal(k)) == -(k as int)
  {
    var s := Decimal(k);
    var t := "-" + s;
    assert SkipSpaces(t) == t;
    assert t[1..] == s;
    DigitPrefixOfDigits(s);
    DigitsValueOfDecimal(k);
  }

  /** Which checker `main` runs. */
  datatype Mode =
    | Usage
    | Serial(filename: string)
    | ParallelPipe(filename: string, numProcesses: int)
    | ParallelMmap(filename: string, numProcesses: int)

  /** `main`'s choice from `argv` (program name included): a count of one
      always runs the serial checker, even with `-f`; otherwise `-f` as a
      third argument selects the pipe mode and two arguments the mmap mode;
      any other shape is a usage error. */
  function Dispatch(argv: seq<string>): (m: Mode)
    ensures m.Usage? <==> !(|argv| == 3 || (|argv| == 4 && argv[3] == "-f"))
    ensures m.Serial? <==> (|argv| == 3 || (|argv| == 4 && argv[3] == "-f")) && Atoi(argv[2]) == 1
    ensures m.ParallelPipe? <==> |argv| == 4 && argv[3] == "-f" && Atoi(argv[2]) != 1
    ensures m.ParallelMmap? <==> |argv| == 3 && Atoi(argv[2]) != 1
    ensures !m.Usage? ==> m.filename == argv[1]
    ensures m.ParallelPipe? || m.ParallelMmap? ==> m.numProcesses == Atoi(argv[2])
  {
    var pipeFlag := |argv| == 4 && argv[3] == "-f";
    if |argv| != 3 && !pipeFlag then Usage
    else if Atoi(argv[2]) == 1 then Serial(argv[1])
    else if pipeFlag then ParallelPipe(argv[1], Atoi(argv[2]))
    else ParallelMmap(argv[1], Atoi(argv[2]))
  }
}
