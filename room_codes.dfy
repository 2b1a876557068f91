/** Room codes: the decimal rendering of an integer (JavaScript's
    Number.prototype.toString on a non-negative integer), the mapping of one
    Math.random() draw to a candidate code, and the size of the code space,
    which decides whether the rejection-sampling loop of server.js can end. */
module RoomCodes {

  predicate IsDigit(ch: char) {
    '0' <= ch <= '9'
  }

  predicate AllDigits(s: string) {
    forall i :: 0 <= i < |s| ==> IsDigit(s[i])
  }

  function DigitChar(d: nat): (ch: char)
    requires d < 10
    ensures IsDigit(ch) && ch as int - '0' as int == d
  {
    ('0' as int + d) as char
  }

  /** The decimal text of n, without leading zeros (as n.toString() gives it). */
  function ToDecimal(n: nat): (s: string)
    ensures |s| >= 1 && AllDigits(s)
    ensures s[0] == '0' ==> n == 0
    decreases n
  {
    if n < 10 then [DigitChar(n)] else ToDecimal(n / 10) + [DigitChar(n % 10)]
  }

  /** The value of a string of decimal digits: the inverse of ToDecimal. */
  function DecimalValue(s: string): nat
    requires AllDigits(s)
  {
    if s == [] then 0
    else DecimalValue(s[..|s| - 1]) * 10 + (s[|s| - 1] as int - '0' as int)
  }

  lemma {:induction false} DecimalRoundTrip(n: nat)
    ensures DecimalValue(ToDecimal(n)) == n
  {
    if n >= 10 {
      DecimalRoundTrip(n / 10);
      var s := ToDecimal(n);
      assert s[..|s| - 1] == ToDecimal(n / 10);
    }
  }

  lemma ToDecimalInjective(m: nat, n: nat)
    requires ToDecimal(m) == ToDecimal(n)
    ensures m == n
  {
    DecimalRoundTrip(m);
    DecimalRoundTrip(n);
  }

  /** A room code: four decimal digits, the first of them not zero. */
  predicate IsRoomCode(s: string) {
    |s| == 4 && AllDigits(s) && s[0] != '0'
  }

  /** The room code a number of the range 1000..9999 is rendered as. */
  function CodeOf(n: int): (code: string)
    requires 1000 <= n <= 9999
    ensures IsRoomCode(code) && DecimalValue(code) == n
  {
    assert ToDecimal(n) == ToDecimal(n / 1000) + [DigitChar(n / 100 % 10)] + [DigitChar(n / 10 % 10)] + [DigitChar(n % 10)] by {
      assert ToDecimal(n / 100) == ToDecimal(n / 1000) + [DigitChar(n / 100 % 10)];
      assert ToDecimal(n / 10) == ToDecimal(n / 100) + [DigitChar(n / 10 % 10)];
    }
    DecimalRoundTrip(n);
    ToDecimal(n)
  }

  /** Math.floor(1000 + Math.random() * 9000) for one draw r of Math.random(). */
  function DrawToNumber(r: real): (n: int)
    requires 0.0 <= r < 1.0
    ensures 1000 <= n <= 9999
  {
    (1000.0 + r * 9000.0).Floor
  }

  predicate IsDraw(r: real) {
    0.0 <= r < 1.0
  }

  /** The candidate code one draw yields (server.js, the body of generateRoomCode's loop). */
  function DrawnCode(r: real): (code: string)
    requires IsDraw(r)
    ensures IsRoomCode(code) && DecimalValue(code) == DrawToNumber(r)
  {
    CodeOf(DrawToNumber(r))
  }

  /** The two smallest codes and the draws that yield them. */
  lemma SmallestCodes()
    ensures DrawnCode(0.0) == "1000" && DrawnCode(1.0 / 9000.0) == "1001"
  {
    assert DrawToNumber(0.0) == 1000;
    assert DrawToNumber(1.0 / 9000.0) == 1001;
    assert ToDecimal(1) == "1" && ToDecimal(10) == "10" && ToDecimal(100) == "100";
    assert ToDecimal(1000) == "1000" && ToDecimal(1001) == "1001";
  }

  lemma {:induction false} LeadingDigitBound(s: string)
    requires |s| >= 1 && AllDigits(s) && s[0] != '0'
    ensures DecimalValue(s) >= 1
  {
    if |s| > 1 {
      LeadingDigitBound(s[..|s| - 1]);
    }
  }

  /** Every decimal text without a leading zero is what ToDecimal makes of its value. */
  lemma {:induction false} DecimalCanonical(s: string)
    requires |s| >= 1 && AllDigits(s) && (s[0] == '0' ==> |s| == 1)
    ensures ToDecimal(DecimalValue(s)) == s
  {
    var init, d := s[..|s| - 1], s[|s| - 1] as int - '0' as int;
    if |s| == 1 {
      assert DecimalValue(s) == d;
    } else {
      LeadingDigitBound(init);
      DecimalCanonical(init);
      var v := DecimalValue(s);
      assert v == DecimalValue(init) * 10 + d;
      assert v / 10 == DecimalValue(init) && v % 10 == d;
      assert ToDecimal(v) == init + [DigitChar(d)];
    }
  }

  /** The room codes are exactly the renderings of 1000..9999. */
  lemma RoomCodeRange(s: string)
    requires IsRoomCode(s)
    ensures 1000 <= DecimalValue(s) <= 9999 && CodeOf(DecimalValue(s)) == s
  {
    var d0, d1, d2, d3 := s[0] as int - '0' as int, s[1] as int - '0' as int,
                          s[2] as int - '0' as int, s[3] as int - '0' as int;
    assert s[..1][..0] == [] && s[..2][..1] == s[..1] && s[..3][..2] == s[..2] && s[..3] == s[..|s| - 1];
    assert DecimalValue(s[..1]) == d0;
    assert DecimalValue(s[..2]) == d0 * 10 + d1;
    assert DecimalValue(s[..3]) == (d0 * 10 + d1) * 10 + d2;
    assert DecimalValue(s) == ((d0 * 10 + d1) * 10 + d2) * 10 + d3;
    DecimalCanonical(s);
  }

  /** The codes of the numbers 1000..k-1. */
  ghost function CodesBelow(k: int): set<string>
  {
    set n: nat | 1000 <= n < k && n <= 9999 :: CodeOf(n)
  }

  lemma {:induction false} CodesBelowSize(k: int)
    requires 1000 <= k <= 10000
    ensures |CodesBelow(k)| == k - 1000
    decreases k
  {
    if k == 1000 {
      assert CodesBelow(k) == {};
    } else {
      CodesBelowSize(k - 1);
      assert CodesBelow(k) == CodesBelow(k - 1) + {CodeOf(k - 1)};
    }
  }

  /** The set of all room codes, which has 9000 elements. */
  ghost function AllCodes(): (codes: set<string>)
    ensures |codes| == 9000
    ensures forall s :: s in codes <==> IsRoomCode(s)
  {
    CodesBelowSize(10000);
    forall s ensures s in CodesBelow(10000) <==> IsRoomCode(s) {
      if IsRoomCode(s) {
        RoomCodeRange(s);
      }
    }
    CodesBelow(10000)
  }

  /** A draw that yields the code of n. */
  lemma DrawFor(n: int) returns (r: real)
    requires 1000 <= n <= 9999
    ensures IsDraw(r) && DrawToNumber(r) == n && DrawnCode(r) == CodeOf(n)
  {
    r := (n - 1000) as real / 9000.0;
    assert 1000.0 + r * 9000.0 == n as real;
  }

  lemma SubsetSize<T>(a: set<T>, b: set<T>)
    ensures a <= b ==> |a| <= |b|
  {
    if a <= b {
      assert b == a + (b - a);
    }
  }

  /** Some draw of Math.random() yields a code outside `taken` exactly when
      not all 9000 room codes are in `taken`; in particular whenever `taken`
      holds fewer than 9000 strings. */
  lemma FreeDrawExists(taken: set<string>)
    ensures (exists r :: IsDraw(r) && DrawnCode(r) !in taken) <==> !(AllCodes() <= taken)
    ensures |taken| < 9000 ==> exists r :: IsDraw(r) && DrawnCode(r) !in taken
  {
    SubsetSize(AllCodes(), taken);
    if !(AllCodes() <= taken) {
      var s :| s in AllCodes() && s !in taken;
      RoomCodeRange(s);
      var r := DrawFor(DecimalValue(s));
      assert DrawnCode(r) !in taken;
    }
  }
}
