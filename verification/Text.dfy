// Option, minimum, and the string operations of Go's strconv and strings packages that the
// modelled code calls: decimal formatting, signed parsing, and splitting at a separator.
module Text {

  datatype Option<+T> = None | Some(value: T)

  const INT32_LIMIT: int := 0x8000_0000
  const INT64_LIMIT: int := 0x8000_0000_0000_0000

  function Min(a: nat, b: nat): nat {
    if a < b then a else b
  }

  predicate IsDigit(c: char) {
    '0' <= c <= '9'
  }

  predicate AllDigits(s: string) {
    forall i :: 0 <= i < |s| ==> IsDigit(s[i])
  }

  function Digits(n: nat): (s: string)
    ensures |s| > 0 && AllDigits(s)
  {
    if n < 10 then ['0' + n as char] else Digits(n / 10) + ['0' + (n % 10) as char]
  }

  /** strconv.Itoa. */
  function Itoa(n: int): string {
    if n < 0 then "-" + Digits(-n) else Digits(n)
  }

  function Value(s: string): int
    requires AllDigits(s)
  {
    if s == [] then 0 else 10 * Value(s[..|s| - 1]) + (s[|s| - 1] as int - '0' as int)
  }

  /** strconv.ParseInt in base 10; `limit` is two to the power bitSize - 1. None is the error. */
  function ParseInt(s: string, limit: int): Option<int> {
    var body := if s != [] && (s[0] == '-' || s[0] == '+') then s[1..] else s;
    if body == [] || !AllDigits(body) then None
    else
      var v: int := if s[0] == '-' then -Value(body) else Value(body);
      if -limit <= v < limit then Some(v) else None
  }

  lemma {:induction false} ValueOfDigits(n: nat)
    ensures Value(Digits(n)) == n
  {
    if n >= 10 {
      ValueOfDigits(n / 10);
      var s := Digits(n);
      assert s[..|s| - 1] == Digits(n / 10);
    }
  }

  /** Parsing undoes formatting for every integer in range. */
  lemma ParseOfItoa(n: int, limit: int)
    requires -limit <= n < limit
    ensures ParseInt(Itoa(n), limit) == Some(n)
  {
    ValueOfDigits(if n < 0 then -n else n);
    if n >= 0 {
      assert IsDigit(Digits(n)[0]);
    } else {
      assert Itoa(n)[1..] == Digits(-n);
    }
  }

  /** And outside the range there is an error. */
  lemma ParseOfItoaIff(n: int, limit: int)
    ensures ParseInt(Itoa(n), limit) == if -limit <= n < limit then Some(n) else None
  {
    if -limit <= n < limit {
      ParseOfItoa(n, limit);
    } else {
      ValueOfDigits(if n < 0 then -n else n);
      if n >= 0 {
        assert IsDigit(Digits(n)[0]);
      } else {
        assert Itoa(n)[1..] == Digits(-n);
      }
    }
  }

  lemma ParseDigits(s: string, limit: int)
    requires AllDigits(s) && s != ""
    ensures var v: int := Value(s);
            ParseInt(s, limit) == ParseInt("+" + s, limit) == if -limit <= v < limit then Some(v) else None
  {
    assert IsDigit(s[0]);
    assert ("+" + s)[1..] == s;
  }

  /** A plus sign changes nothing, and neither do leading zeros. */
  lemma ParsePlusAndZeros(n: nat, limit: int, zeros: nat)
    ensures var s := Zeros(zeros) + Digits(n);
            ParseInt("+" + s, limit) == ParseInt(s, limit) == if -limit <= n < limit then Some(n) else None
  {
    hide Digits, Value, ParseInt;
    var s := Zeros(zeros) + Digits(n);
    ValueOfZeros(zeros, Digits(n));
    ValueOfDigits(n);
    ParseDigits(s, limit);
  }

  function Zeros(n: nat): (s: string)
    ensures |s| == n && AllDigits(s)
  {
    seq(n, _ => '0')
  }

  lemma {:induction false} ValueOfZeros(n: nat, s: string)
    requires AllDigits(s)
    ensures Value(Zeros(n) + s) == Value(s)
  {
    var t := Zeros(n) + s;
    if s != [] {
      assert t[..|t| - 1] == Zeros(n) + s[..|s| - 1];
      ValueOfZeros(n, s[..|s| - 1]);
    } else if n > 0 {
      assert t[..|t| - 1] == Zeros(n - 1) + [];
      ValueOfZeros(n - 1, []);
    } else {
      assert t == [];
    }
  }

  /** Anything that is not an optional sign and at least one digit is an error. */
  lemma ParseRejects(s: string, limit: int)
    ensures s == "" || s == "+" || s == "-" ==> ParseInt(s, limit).None?
    ensures (exists i :: 0 < i < |s| && !IsDigit(s[i])) ==> ParseInt(s, limit).None?
    ensures s != "" && !IsDigit(s[0]) && s[0] != '+' && s[0] != '-' ==> ParseInt(s, limit).None?
  {
    if i :| 0 < i < |s| && !IsDigit(s[i]) {
      var body := if s[0] == '-' || s[0] == '+' then s[1..] else s;
      assert body[if s[0] == '-' || s[0] == '+' then i - 1 else i] == s[i];
    }
  }

  /** strings.Split at a one-character separator: always at least one piece. */
  function Split(s: string, sep: char): (parts: seq<string>)
    ensures |parts| >= 1
  {
    if s == [] then [[]]
    else
      var rest := Split(s[1..], sep);
      if s[0] == sep then [[]] + rest else [[s[0]] + rest[0]] + rest[1..]
  }

  /** strings.SplitN(s, sep, 2): the text before the first separator and the text after it. */
  function Cut(s: string, sep: char): (r: Option<(string, string)>)
    ensures r.None? <==> sep !in s
    ensures r.Some? ==> sep !in r.value.0 && s == r.value.0 + [sep] + r.value.1
  {
    if s == [] then None
    else if s[0] == sep then Some(([], s[1..]))
    else
      match Cut(s[1..], sep)
      case None => None
      case Some((a, b)) => Some(([s[0]] + a, b))
  }

  lemma {:induction false} SplitWhole(a: string, sep: char)
    requires sep !in a
    ensures Split(a, sep) == [a]
  {
    if a != [] {
      SplitWhole(a[1..], sep);
      assert [a[0]] + a[1..] == a;
    }
  }

  lemma {:induction false} SplitFirst(a: string, sep: char, b: string)
    requires sep !in a
    ensures Split(a + [sep] + b, sep) == [a] + Split(b, sep)
  {
    var s := a + [sep] + b;
    if a == [] {
      assert s[1..] == b;
    } else {
      assert s[1..] == a[1..] + [sep] + b;
      SplitFirst(a[1..], sep, b);
      assert [a[0]] + a[1..] == a;
    }
  }

  /** The part before the first separator and the part after it determine each other. */
  lemma CutUnique(a: string, b: string, c: string, d: string, sep: char)
    requires sep !in a && sep !in c
    requires a + [sep] + b == c + [sep] + d
    ensures a == c && b == d
  {
    var s := a + [sep] + b;
    assert s[|a|] == sep && s[|c|] == sep;
    assert forall i :: 0 <= i < |a| ==> s[i] == a[i];
    assert forall i :: 0 <= i < |c| ==> s[i] == c[i];
    assert |a| == |c|;
    assert a == s[..|a|] && c == s[..|c|];
    assert b == s[|a| + 1..] && d == s[|c| + 1..];
  }

  /** Cutting undoes joining exactly when the first part has no separator. */
  lemma CutOfJoin(a: string, b: string, sep: char)
    ensures Cut(a + [sep] + b, sep) == Some((a, b)) <==> sep !in a
  {
    var s := a + [sep] + b;
    assert s[|a|] == sep;
    var (x, y) := Cut(s, sep).value;
    if sep !in a {
      CutUnique(a, b, x, y, sep);
    }
  }
}
