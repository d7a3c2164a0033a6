/**
 * The session record: the SSH endpoint and its tunnels. It is a value with
 * structural equality over every field (the registry's key), a text form that
 * hides the default port, and an ordering on the session name alone.
 */
module Sessions {

  import opened Optional
  import opened Tunnels

  /** A 32-bit signed integer, the type of the port field. */
  type Int32 = x: int | -0x8000_0000 <= x < 0x8000_0000

  const DefaultPort: Int32 := 22

  datatype Session = Session(
    sessionName: string,
    hostname: Option<string>,
    port: Int32,
    username: Option<string>,
    password: Option<string>,
    identityPath: Option<string>,
    passPhrase: Option<string>,
    isCompressed: bool,
    ciphers: Option<string>,
    debugLogPath: Option<string>,
    tunnels: seq<Tunnel>)

  /** A session built with every optional constructor argument left at its default. */
  function NewSession(sessionName: string): (s: Session)
    ensures s.sessionName == sessionName && s.port == DefaultPort && !s.isCompressed && s.tunnels == []
    ensures s.hostname == None && s.username == None && s.password == None
    ensures s.identityPath == None && s.passPhrase == None && s.ciphers == None && s.debugLogPath == None
  {
    Session(sessionName, None, DefaultPort, None, None, None, None, false, None, None, [])
  }

  // ---------------------------------------------------------------- text form

  /** A string template renders a null reference as the text "null". */
  function Text(o: Option<string>): (r: string)
    ensures o.None? ==> r == "null"
    ensures o.Some? ==> r == o.value
  {
    match o
    case None => "null"
    case Some(v) => v
  }

  function DigitChar(d: nat): (c: char)
    requires d < 10
    ensures '0' <= c <= '9'
  {
    "0123456789"[d]
  }

  function DigitValue(c: char): (d: nat)
    requires '0' <= c <= '9'
    ensures d < 10
  {
    (c as int - '0' as int) as nat
  }

  predicate AllDigits(s: string)
  {
    forall i :: 0 <= i < |s| ==> '0' <= s[i] <= '9'
  }

  /** Decimal digits of `n`, most significant first, without leading zeros. */
  function NatText(n: nat): (r: string)
    ensures |r| >= 1 && AllDigits(r)
    ensures r[0] == '0' ==> n == 0
  {
    if n < 10 then [DigitChar(n)] else NatText(n / 10) + [DigitChar(n % 10)]
  }

  /** The decimal text of an integer, with a leading '-' when it is negative. */
  function IntText(n: int): (r: string)
    ensures |r| >= 1
    ensures n < 0 <==> r[0] == '-'
  {
    if n < 0 then "-" + NatText(-n) else NatText(n)
  }

  /** Reads back a string of decimal digits. */
  function ParseNat(s: string): nat
    requires AllDigits(s)
  {
    if s == [] then 0 else ParseNat(s[..|s| - 1]) * 10 + DigitValue(s[|s| - 1])
  }

  /** Reads back the text of an integer. */
  function ParseInt(s: string): int
    requires |s| >= 1
    requires s[0] == '-' ==> AllDigits(s[1..])
    requires s[0] != '-' ==> AllDigits(s)
  {
    if s[0] == '-' then -(ParseNat(s[1..]) as int) else ParseNat(s)
  }

  lemma {:induction false} ParseNatText(n: nat)
    ensures ParseNat(NatText(n)) == n
  {
    var s := NatText(n);
    if n >= 10 {
      ParseNatText(n / 10);
      assert s[..|s| - 1] == NatText(n / 10);
    }
  }

  /** The decimal text of an integer reads back as that integer. */
  lemma NegativeTextRoundTrip(n: int)
    requires n < 0
    ensures ParseInt(IntText(n)) == n
  {
    var m: nat := -n;
    var digits := NatText(m);
    var s := "-" + digits;
    assert IntText(n) == s;
    assert s[1..] == digits;
    ParseNatText(m);
    assert ParseInt(s) == -(ParseNat(digits) as int);
  }

  lemma NonNegativeTextRoundTrip(n: nat)
    ensures ParseInt(IntText(n)) == n
  {
    assert IntText(n) == NatText(n);
    ParseNatText(n);
  }

  lemma IntTextRoundTrip(n: int)
    ensures ParseInt(IntText(n)) == n
  {
    if n < 0 {
      NegativeTextRoundTrip(n);
    } else {
      NonNegativeTextRoundTrip(n);
    }
  }

  /** Different integers have different texts. */
  lemma IntTextInjective(m: int, n: int)
    requires IntText(m) == IntText(n)
    ensures m == n
  {
    IntTextRoundTrip(m);
    IntTextRoundTrip(n);
  }

  /** Everything the text form shows before the optional port. */
  function Header(s: Session): string
  {
    "Session (" + s.sessionName + ": " + Text(s.username) + "@" + Text(s.hostname)
  }

  /** The text form: `Session (name: user@host)`, with `:port` before `)` when the port is not the default. */
  function ToString(s: Session): (r: string)
    ensures Header(s) <= r
    ensures r[|r| - 1] == ')'
    ensures |r| >= |Header(s)| + 1
  {
    Header(s) + (if s.port != DefaultPort then ":" + IntText(s.port) else "") + ")"
  }

  /** The port appears in the text exactly when it is not the default one. */
  lemma PortShownIffNotDefault(s: Session)
    ensures s.port == DefaultPort <==> ToString(s) == Header(s) + ")"
    ensures s.port != DefaultPort ==> ToString(s)[|Header(s)|] == ':'
    ensures s.port != DefaultPort ==> ToString(s)[|Header(s)| + 1..|ToString(s)| - 1] == IntText(s.port)
  {
    if s.port != DefaultPort {
      assert |ToString(s)| == |Header(s)| + 1 + |IntText(s.port)| + 1;
    }
  }

  /** Two sessions that differ only in the port have different texts. */
  lemma ToStringDistinguishesPorts(s: Session, p: Int32)
    requires ToString(s) == ToString(s.(port := p))
    ensures s.port == p
  {
    var t := s.(port := p);
    assert Header(s) == Header(t);
    if s.port != DefaultPort && p != DefaultPort {
      PortShownIffNotDefault(s);
      PortShownIffNotDefault(t);
      IntTextInjective(s.port, p);
    }
  }

  /** A null user or host reads exactly like the literal user or host name "null". */
  lemma NullRendersAsText(s: Session)
    ensures ToString(s.(username := None)) == ToString(s.(username := Some("null")))
    ensures ToString(s.(hostname := None)) == ToString(s.(hostname := Some("null")))
  {
  }

  // ---------------------------------------------------------------- ordering

  /**
   * String comparison: the difference of the first differing characters, or
   * the difference of the lengths when one string is a prefix of the other.
   */
  function CompareStrings(a: string, b: string): (r: int)
    ensures a <= b || b <= a ==> r == |a| - |b|
    decreases |a|
  {
    if |a| == 0 || |b| == 0 then |a| - |b|
    else if a[0] != b[0] then a[0] as int - b[0] as int
    else CompareStrings(a[1..], b[1..])
  }

  /**
   * When neither string is a prefix of the other, the comparison is the
   * difference of the characters at the first position where they differ.
   */
  lemma {:induction false} CompareStringsFirstDifference(a: string, b: string)
    requires !(a <= b || b <= a)
    ensures exists k :: FirstDifferenceAt(a, b, k) && CompareStrings(a, b) == a[k] as int - b[k] as int
    decreases |a|
  {
    if a[0] == b[0] {
      var a', b' := a[1..], b[1..];
      assert a == [a[0]] + a' && b == [b[0]] + b';
      assert !(a' <= b' || b' <= a');
      CompareStringsFirstDifference(a', b');
      var k :| FirstDifferenceAt(a', b', k) && CompareStrings(a', b') == a'[k] as int - b'[k] as int;
      assert a[..k + 1] == [a[0]] + a'[..k] && b[..k + 1] == [b[0]] + b'[..k];
      assert FirstDifferenceAt(a, b, k + 1);
    } else {
      assert FirstDifferenceAt(a, b, 0);
    }
  }

  /** `k` is the first position where `a` and `b` differ. */
  predicate FirstDifferenceAt(a: string, b: string, k: int)
  {
    0 <= k < |a| && k < |b| && a[..k] == b[..k] && a[k] != b[k]
  }

  lemma {:induction false} CompareStringsAntisymmetric(a: string, b: string)
    ensures CompareStrings(a, b) == -CompareStrings(b, a)
    decreases |a|
  {
    if |a| > 0 && |b| > 0 && a[0] == b[0] {
      CompareStringsAntisymmetric(a[1..], b[1..]);
    }
  }

  lemma {:induction false} CompareStringsZeroIffEqual(a: string, b: string)
    ensures CompareStrings(a, b) == 0 <==> a == b
    decreases |a|
  {
    if |a| > 0 && |b| > 0 && a[0] == b[0] {
      CompareStringsZeroIffEqual(a[1..], b[1..]);
      assert a == [a[0]] + a[1..] && b == [b[0]] + b[1..];
    }
  }

  lemma {:induction false} CompareStringsTransitive(a: string, b: string, c: string)
    requires CompareStrings(a, b) < 0 && CompareStrings(b, c) < 0
    ensures CompareStrings(a, c) < 0
    decreases |a|
  {
    if |a| > 0 && |b| > 0 && |c| > 0 && a[0] == b[0] && b[0] == c[0] {
      CompareStringsTransitive(a[1..], b[1..], c[1..]);
    }
  }

  /**
   * Sessions are ordered by name alone: the order is 0 exactly for equal
   * names, whatever the other fields hold.
   */
  function CompareTo(s: Session, other: Session): (r: int)
    ensures r == 0 <==> s.sessionName == other.sessionName
  {
    CompareStringsZeroIffEqual(s.sessionName, other.sessionName);
    CompareStrings(s.sessionName, other.sessionName)
  }

  /** Swapping the operands flips the sign of the comparison. */
  lemma CompareToAntisymmetric(s: Session, other: Session)
    ensures CompareTo(s, other) == -CompareTo(other, s)
  {
    CompareStringsAntisymmetric(s.sessionName, other.sessionName);
  }

  lemma CompareToTransitive(s: Session, t: Session, u: Session)
    requires CompareTo(s, t) < 0 && CompareTo(t, u) < 0
    ensures CompareTo(s, u) < 0
  {
    CompareStringsTransitive(s.sessionName, t.sessionName, u.sessionName);
  }

  /**
   * Equality (the registry's key) compares every field, so it is strictly
   * finer than the order: equal sessions compare as 0, and sessions that
   * compare as 0 can still be different keys.
   */
  lemma EqualityFinerThanOrder(s: Session, other: Session)
    ensures s == other ==> CompareTo(s, other) == 0
    ensures CompareTo(s, s.(port := if s.port == DefaultPort then 2222 else DefaultPort)) == 0
    ensures s.(port := if s.port == DefaultPort then 2222 else DefaultPort) != s
  {
    CompareStringsZeroIffEqual(s.sessionName, s.sessionName);
  }
}
