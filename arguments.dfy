/**
 * The validation of the command-line arguments K and iter (`is_number` and
 * `check_argument`, mykmeanssp.c:211-244, and their use in `main`,
 * mykmeanssp.c:74-107).
 *
 * A C string is modelled as the sequence of its characters before the
 * terminating NUL, so it holds no NUL itself; a NULL pointer is `None`.
 */
module Arguments {

  import opened Wrappers

  /** A C string: no NUL before its end. */
  predicate NulFree(s: string)
  {
    forall i :: 0 <= i < |s| ==> s[i] != '\0'
  }

  /** `isdigit` in the C locale. */
  predicate IsDigit(c: char)
  {
    '0' <= c <= '9'
  }

  /** Where the digits start: after one leading minus sign, if there is one. */
  function DigitsStart(s: string): nat
    requires |s| > 0
  {
    if s[0] == '-' then 1 else 0
  }

  /**
   * The strings `is_number` accepts: not empty, and only decimal digits after
   * an optional leading minus sign. A lone "-" is one of them.
   */
  predicate Numeral(s: string)
  {
    |s| > 0 && forall i :: DigitsStart(s) <= i < |s| ==> IsDigit(s[i])
  }

  /**
   * `is_number` (mykmeanssp.c:226-244): 0 for NULL and for the empty string;
   * otherwise it skips one leading '-' and returns 0 at the first character
   * that is not a digit, and 1 when it reaches the end.
   */
  method IsNumber(number: Option<string>) returns (r: int)
    requires number.Some? ==> NulFree(number.value)
    ensures r == 0 || r == 1
    ensures r == 1 <==> number.Some? && Numeral(number.value)
  {
    if number.None? || |number.value| == 0 {
      return 0;
    }
    var s := number.value;
    var i := 0;
    if s[0] == '-' {
      i := 1;
    }
    while i < |s|
      invariant DigitsStart(s) <= i <= |s|
      invariant forall j :: DigitsStart(s) <= j < i ==> IsDigit(s[j])
    {
      if !IsDigit(s[i]) {
        return 0;
      }
      i := i + 1;
    }
    return 1;
  }

  /** The value of a digit character. */
  function DigitValue(c: char): nat
    requires IsDigit(c)
  {
    (c as int) - ('0' as int)
  }

  /** The value of a string of decimal digits, most significant first. */
  function DigitsValue(ds: string): nat
    requires forall i :: 0 <= i < |ds| ==> IsDigit(ds[i])
  {
    if ds == [] then 0 else 10 * DigitsValue(ds[..|ds| - 1]) + DigitValue(ds[|ds| - 1])
  }

  /**
   * `atoi` on the strings `is_number` accepts: the digits' value, negated
   * after a minus sign. A lone "-" has no digits and reads as 0.
   */
  function Atoi(s: string): (r: int)
    requires Numeral(s)
    ensures s[0] == '-' ==> r <= 0
    ensures s[0] != '-' ==> r >= 0
    ensures r == 0 <==> forall i :: DigitsStart(s) <= i < |s| ==> s[i] == '0'
  {
    var ds := s[DigitsStart(s)..];
    assert forall i :: 0 <= i < |ds| ==> ds[i] == s[DigitsStart(s) + i];
    DigitsValueZero(ds);
    if s[0] == '-' then -(DigitsValue(ds) as int) else DigitsValue(ds)
  }

  /** Digits read as 0 exactly when every one of them is '0'. */
  lemma {:induction false} DigitsValueZero(ds: string)
    requires forall i :: 0 <= i < |ds| ==> IsDigit(ds[i])
    ensures DigitsValue(ds) == 0 <==> forall i :: 0 <= i < |ds| ==> ds[i] == '0'
  {
    if ds != [] {
      var init := ds[..|ds| - 1];
      DigitsValueZero(init);
      assert forall i :: 0 <= i < |init| ==> init[i] == ds[i];
    }
  }

  /** The character of a digit value. */
  function DigitChar(n: nat): (c: char)
    requires n < 10
    ensures IsDigit(c) && DigitValue(c) == n
  {
    ('0' as int + n) as char
  }

  /** The decimal digits of a natural number, without leading zeros. */
  function ShowNat(n: nat): (ds: string)
    ensures |ds| > 0
    ensures forall i :: 0 <= i < |ds| ==> IsDigit(ds[i])
  {
    if n < 10 then [DigitChar(n)] else ShowNat(n / 10) + [DigitChar(n % 10)]
  }

  /** The decimal form of an integer, with a minus sign when it is negative. */
  function Show(n: int): string
  {
    if n < 0 then "-" + ShowNat(-n) else ShowNat(n)
  }

  /** Reading the digits of n gives n back. */
  lemma {:induction false} DigitsValueShowNat(n: nat)
    ensures DigitsValue(ShowNat(n)) == n
  {
    if n >= 10 {
      DigitsValueShowNat(n / 10);
      var ds := ShowNat(n);
      assert ds[..|ds| - 1] == ShowNat(n / 10);
    }
  }

  /** Every integer written in decimal is accepted by `is_number`, and `atoi` reads it back. */
  lemma AtoiShow(n: int)
    ensures Numeral(Show(n))
    ensures Atoi(Show(n)) == n
  {
    if n < 0 {
      DigitsValueShowNat(-n);
      assert Show(n)[1..] == ShowNat(-n);
    } else {
      DigitsValueShowNat(n);
    }
  }

  /** A lone minus sign passes `is_number` and reads as 0; the empty string does not pass. */
  lemma LoneDash()
    ensures Numeral("-") && Atoi("-") == 0
    ensures !Numeral("")
  {
    assert "-"[1..] == [];
  }

  /** `check_argument`'s condition: a number strictly between the two bounds. */
  predicate Accepted(smallest: int, arg: Option<string>, largest: int)
  {
    arg.Some? && Numeral(arg.value) && smallest < Atoi(arg.value) < largest
  }

  /**
   * `check_argument` (mykmeanssp.c:212-223): 1 when the argument is a number
   * and its value lies strictly between `smallest` and `largest`, else 0.
   */
  method CheckArgument(smallest: int, arg: Option<string>, largest: int) returns (r: int)
    requires arg.Some? ==> NulFree(arg.value)
    ensures r == 0 || r == 1
    ensures r == 1 <==> Accepted(smallest, arg, largest)
  {
    var flagIsNum := IsNumber(arg);
    if flagIsNum == 1 {
      var num := Atoi(arg.value);
      if num <= smallest || largest <= num {
        return 0;
      }
      return 1;
    }
    return 0;
  }

  /** Exactly the integers strictly between the bounds pass the check, written in decimal. */
  lemma AcceptedShow(smallest: int, n: int, largest: int)
    ensures Accepted(smallest, Some(Show(n)), largest) <==> smallest < n < largest
  {
    AtoiShow(n);
  }

  /** The number of rounds `main` uses when no iter argument is given (mykmeanssp.c:16, 84). */
  const DefaultIter: int := 200

  /** The exclusive upper bound `main` puts on iter (mykmeanssp.c:79). */
  const IterBound: int := 1000

  /** The run parameters `main` takes from the command line. */
  datatype Config = Config(k: int, iter: int)

  /** `argv[i]` for the arguments `args` that follow the program name: NULL past the end. */
  function Arg(args: seq<string>, i: nat): Option<string>
  {
    if i < |args| then Some(args[i]) else None
  }

  /**
   * Which of `main`'s two checks failed: `badK` when K was rejected, `badIter`
   * when iter was given and rejected.
   */
  datatype ArgError = ArgError(badK: bool, badIter: bool)

  /**
   * The lines `main` prints for rejected arguments (mykmeanssp.c:103-106),
   * one per failed check, K's first.
   */
  function ErrorMessages(e: ArgError): (ms: seq<string>)
    ensures "Invalid number of clusters!" in ms <==> e.badK
    ensures "Invalid maximum iteration!" in ms <==> e.badIter
    ensures |ms| == (if e.badK then 1 else 0) + (if e.badIter then 1 else 0)
  {
    (if e.badK then ["Invalid number of clusters!"] else []) +
    (if e.badIter then ["Invalid maximum iteration!"] else [])
  }

  /**
   * The argument handling of `main` (mykmeanssp.c:74-85, 101-107) for the
   * arguments `args` after the program name, so that argc == |args| + 1, and
   * N points. K is always checked against 1 < K < N; iter is checked against
   * 1 < iter < 1000 only when there are exactly two arguments, and is 200
   * otherwise. When a check fails the result says which, so which lines
   * `main` prints before it returns 1.
   */
  method ParseArguments(args: seq<string>, n: int) returns (r: Result<Config, ArgError>)
    requires forall i :: 0 <= i < |args| ==> NulFree(args[i])
    ensures r.Ok? <==> Accepted(1, Arg(args, 0), n) && (|args| == 2 ==> Accepted(1, Arg(args, 1), IterBound))
    ensures r.Ok? ==> r.value.k == Atoi(args[0])
    ensures r.Ok? ==> r.value.iter == if |args| == 2 then Atoi(args[1]) else DefaultIter
    ensures r.Ok? ==> 1 < r.value.k < n && 1 < r.value.iter < IterBound
    ensures r.Err? ==> r.error.badK == !Accepted(1, Arg(args, 0), n)
    ensures r.Err? ==> r.error.badIter == (|args| == 2 && !Accepted(1, Arg(args, 1), IterBound))
    ensures r.Err? ==> |ErrorMessages(r.error)| > 0
  {
    var flagK := CheckArgument(1, Arg(args, 0), n);
    var flagIter := 1;
    if |args| == 2 {
      flagIter := CheckArgument(1, Arg(args, 1), IterBound);
    }
    if flagK == 1 && flagIter == 1 {
      var k := Atoi(args[0]);
      var iter := if |args| == 2 then Atoi(args[1]) else DefaultIter;
      return Ok(Config(k, iter));
    }
    return Err(ArgError(flagK == 0, flagIter == 0));
  }
}
