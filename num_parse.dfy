/** `std::stoi` and `std::stoul` as partial functions (None where they throw),
    following `strtol`/`strtoul` in base 10 on a platform with a 32-bit `int`
    and a 64-bit `unsigned long`. */
module NumParse {
  import opened Wrappers
  import opened Text

  const IntMin: int := -0x8000_0000
  const IntMax: int := 0x7FFF_FFFF
  const ULongMax: nat := 0xFFFF_FFFF_FFFF_FFFF

  /** `isspace` in the C locale: space, \t, \n, \v, \f, \r. */
  predicate IsSpace(c: char)
  {
    c == ' ' || c == '\t' || c == '\n' || c == '\r' || c as int == 11 || c as int == 12
  }

  function SkipSpaces(s: string): (r: string)
    ensures |r| <= |s| && r == s[|s| - |r|..]
    ensures r == [] || !IsSpace(r[0])
  {
    if s != [] && IsSpace(s[0]) then SkipSpaces(s[1..]) else s
  }

  /** Length of the run of decimal digits at the front of `s`. */
  function DigitRun(s: string): (n: nat)
    ensures n <= |s| && AllDigits(s[..n])
    ensures n < |s| ==> !IsDigit(s[n])
  {
    if s != [] && IsDigit(s[0]) then
      assert s[..1 + DigitRun(s[1..])] == [s[0]] + s[1..][..DigitRun(s[1..])];
      1 + DigitRun(s[1..])
    else 0
  }

  /** What the C conversion reads: blanks, an optional sign, then at least one digit;
      anything after the digits is ignored. None where no digit is found. */
  datatype Scanned = Scanned(negative: bool, magnitude: nat)

  function Scan(s: string): Option<Scanned>
  {
    var t := SkipSpaces(s);
    var negative := t != [] && t[0] == '-';
    var u := if t != [] && (t[0] == '-' || t[0] == '+') then t[1..] else t;
    var n := DigitRun(u);
    if n == 0 then None else Some(Scanned(negative, DigitsValue(u[..n])))
  }

  /** `std::stoi`: throws (None) when nothing is parsed or the value leaves `int`. */
  function Stoi(s: string): (r: Option<int>)
    ensures r.Some? ==> IntMin <= r.value <= IntMax
  {
    match Scan(s)
    case None => None
    case Some(sc) =>
      var v: int := if sc.negative then 0 - (sc.magnitude as int) else sc.magnitude as int;
      if IntMin <= v <= IntMax then Some(v) else None
  }

  /** `std::stoul`: throws when nothing is parsed or the magnitude exceeds `unsigned long`;
      a leading minus wraps the value modulo 2^64, as `strtoul` does. */
  function Stoul(s: string): (r: Option<nat>)
    ensures r.Some? ==> r.value <= ULongMax
  {
    match Scan(s)
    case None => None
    case Some(sc) =>
      if sc.magnitude > ULongMax then None
      else if sc.negative then Some((ULongMax + 1 - sc.magnitude) % (ULongMax + 1))
      else Some(sc.magnitude)
  }

  lemma ScanNatToString(n: nat)
    ensures Scan(NatToString(n)) == Some(Scanned(false, n))
  {
    ScanDigits(NatToString(n));
    DigitsValueOfNatToString(n);
  }

  /** A bare run of digits is read whole, as a non-negative number. */
  lemma ScanDigits(s: string)
    requires s != [] && AllDigits(s)
    ensures Scan(s) == Some(Scanned(false, DigitsValue(s)))
  {
    assert IsDigit(s[0]);
    assert SkipSpaces(s) == s;
    assert s[0] != '-' && s[0] != '+';
    assert DigitRun(s) == |s|;
    assert s[..|s|] == s;
  }

  /** A number written in decimal parses back to itself. */
  lemma StoiNatToString(n: nat)
    requires n <= IntMax
    ensures Stoi(NatToString(n)) == Some(n)
  {
    ScanNatToString(n);
  }

  lemma StoulNatToString(n: nat)
    requires n <= ULongMax
    ensures Stoul(NatToString(n)) == Some(n)
  {
    ScanNatToString(n);
  }

}
