/** Signed webhook headers. The MAC is a parameter; a header is compared byte by byte. */
module Webhook {
  import opened Common
  import opened Strings

  /** A keyed MAC in hexadecimal, and the bytes of a text. */
  datatype Crypto = Crypto(mac: (string, string) -> string, utf8: string -> seq<bv8>)

  /** No two texts share a MAC under one key, a MAC has no blanks at its ends, and encoding is injective. */
  ghost predicate Ideal(c: Crypto, secret: string) {
    && (forall x, y :: c.mac(secret, x) == c.mac(secret, y) ==> x == y)
    && (forall x :: c.mac(secret, x) != "" && !IsSpace(c.mac(secret, x)[|c.mac(secret, x)| - 1]))
    && (forall x, y :: c.utf8(x) == c.utf8(y) ==> x == y)
  }

  function Decimal(n: nat): string {
    if n < 10 then [Digit(n)] else Decimal(n / 10) + [Digit(n % 10)]
  }

  function Show(t: int): string {
    if t < 0 then "-" + Decimal(-t) else Decimal(t)
  }

  function Signed(t: int, payload: string): string {
    Show(t) + ("." + payload)
  }

  function Sign(c: Crypto, secret: Option<string>, payload: string, t: int): Option<string> {
    match secret
    case None => None
    case Some(k) => Some("t=" + (Show(t) + ("," + ("v1=" + c.mac(k, Signed(t, payload))))))
  }

  /** All differences of two byte strings, collected into one byte. */
  function Differences(a: seq<bv8>, b: seq<bv8>, acc: bv8): bv8
    requires |a| == |b|
  {
    if a == [] then acc else Differences(a[1..], b[1..], acc | (a[0] ^ b[0]))
  }

  predicate ConstantTimeEq(a: seq<bv8>, b: seq<bv8>) {
    |a| == |b| && Differences(a, b, 0) == 0
  }

  predicate Verify(c: Crypto, secret: Option<string>, payload: string, t: int, header: string) {
    var expected := Sign(c, secret, payload, t);
    expected.Some? && ConstantTimeEq(c.utf8(Trim(header)), c.utf8(expected.value))
  }

  lemma ByteSteps(acc: bv8, x: bv8, y: bv8)
    ensures acc | (x ^ y) == 0 <==> acc == 0 && x == y
  {
  }

  lemma {:induction false} DifferencesVanish(a: seq<bv8>, b: seq<bv8>, acc: bv8)
    requires |a| == |b|
    ensures Differences(a, b, acc) == 0 <==> acc == 0 && a == b
  {
    if a != [] {
      ByteSteps(acc, a[0], b[0]);
      DifferencesVanish(a[1..], b[1..], acc | (a[0] ^ b[0]));
      assert a == b <==> a[0] == b[0] && a[1..] == b[1..] by {
        assert a == [a[0]] + a[1..] && b == [b[0]] + b[1..];
      }
    }
  }

  /** The comparison that never stops early is equality. */
  lemma ConstantTimeEqIsEquality(a: seq<bv8>, b: seq<bv8>)
    ensures ConstantTimeEq(a, b) <==> a == b
  {
    if |a| == |b| { DifferencesVanish(a, b, 0); }
  }

  // ---------- what is signed determines timestamp and payload ----------

  lemma {:induction false} DecimalDigits(n: nat)
    ensures Decimal(n) != "" && forall k :: 0 <= k < |Decimal(n)| ==> '0' <= Decimal(n)[k] <= '9'
  {
    if n >= 10 { DecimalDigits(n / 10); }
  }

  /** The number a decimal text stands for. */
  function Value(s: string): int {
    if s == "" then 0 else 10 * Value(s[..|s| - 1]) + (s[|s| - 1] as int - '0' as int)
  }

  /** The timestamp is written in decimal, without leading zeros and with a sign only if it is negative. */
  lemma {:induction false} DecimalReads(n: nat)
    ensures Value(Decimal(n)) == n && (n > 0 ==> Decimal(n)[..1] != "0")
  {
    DecimalDigits(n);
    if n >= 10 {
      DecimalReads(n / 10);
      DecimalDigits(n / 10);
      assert Decimal(n)[..|Decimal(n)| - 1] == Decimal(n / 10);
      assert Decimal(n)[..1] == Decimal(n / 10)[..1];
    } else {
      assert Decimal(n)[..0] == "";
    }
  }

  /** The header, and the text under its MAC. */
  lemma SignIs(c: Crypto, k: string, payload: string, t: int)
    ensures var stamp := if t < 0 then "-" + Decimal(-t) else Decimal(t);
      Sign(c, Some(k), payload, t) == Some("t=" + stamp + ",v1=" + c.mac(k, stamp + "." + payload))
    ensures Sign(c, None, payload, t) == None
  {
    var stamp := Show(t);
    assert Signed(t, payload) == stamp + "." + payload;
    var mac := c.mac(k, Signed(t, payload));
    assert "t=" + (stamp + ("," + ("v1=" + mac))) == "t=" + stamp + ",v1=" + mac;
  }

  lemma {:induction false} DecimalIsInjective(a: nat, b: nat)
    requires Decimal(a) == Decimal(b)
    ensures a == b
  {
    DecimalDigits(a / 10);
    DecimalDigits(b / 10);
    assert Decimal(a)[|Decimal(a)| - 1] == Digit(a % 10) && Decimal(b)[|Decimal(b)| - 1] == Digit(b % 10);
    if a >= 10 {
      assert Decimal(a / 10) == Decimal(a)[..|Decimal(a)| - 1] == Decimal(b / 10);
      DecimalIsInjective(a / 10, b / 10);
    }
  }

  lemma ShowIsPlain(t: int)
    ensures Lacks(Show(t), '.') && Lacks(Show(t), ',') && Show(t) != "" && !IsSpace(Show(t)[0])
  {
    DecimalDigits(if t < 0 then -t else t);
  }

  lemma ShowIsInjective(t: int, u: int)
    requires Show(t) == Show(u)
    ensures t == u
  {
    DecimalDigits(if t < 0 then -t else t);
    DecimalDigits(if u < 0 then -u else u);
    assert Show(t)[0] == Show(u)[0];
    if t < 0 && u < 0 {
      assert Decimal(-t) == Show(t)[1..] && Decimal(-u) == Show(u)[1..];
      DecimalIsInjective(-t, -u);
    } else if t >= 0 && u >= 0 {
      DecimalIsInjective(t, u);
    }
  }

  /** "timestamp.payload" can be taken apart again, whatever the payload holds. */
  lemma SignedIsInjective(t: int, p: string, u: int, q: string)
    ensures Signed(t, p) == Signed(u, q) <==> t == u && p == q
  {
    if Signed(t, p) == Signed(u, q) {
      ShowIsPlain(t);
      ShowIsPlain(u);
      FirstMark('.', Show(t), p, Show(u), q);
      ShowIsInjective(t, u);
    }
  }

  lemma HeaderIsTrimmed(c: Crypto, secret: string, payload: string, t: int)
    requires Ideal(c, secret)
    ensures Trim(Sign(c, Some(secret), payload, t).value) == Sign(c, Some(secret), payload, t).value
  {
    var h := Sign(c, Some(secret), payload, t).value;
    var mac := c.mac(secret, Signed(t, payload));
    assert h[0] == 't' && h[|h| - 1] == mac[|mac| - 1];
  }

  lemma VerifyIsEquality(c: Crypto, secret: string, payload: string, t: int, header: string)
    requires Ideal(c, secret)
    ensures Verify(c, Some(secret), payload, t, header) <==> Trim(header) == Sign(c, Some(secret), payload, t).value
  {
    ConstantTimeEqIsEquality(c.utf8(Trim(header)), c.utf8(Sign(c, Some(secret), payload, t).value));
  }

  /** A signed header verifies for exactly the timestamp and payload it was made for. */
  lemma VerifyAcceptsOnlyWhatWasSigned(c: Crypto, secret: string, p: string, t: int, q: string, u: int)
    requires Ideal(c, secret)
    ensures Verify(c, Some(secret), q, u, Sign(c, Some(secret), p, t).value) <==> p == q && t == u
  {
    HeaderIsTrimmed(c, secret, p, t);
    VerifyIsEquality(c, secret, q, u, Sign(c, Some(secret), p, t).value);
    SignedIsInjective(t, p, u, q);
    var a, b := Sign(c, Some(secret), p, t).value, Sign(c, Some(secret), q, u).value;
    if a == b {
      ShowIsPlain(t);
      ShowIsPlain(u);
      var mac, nac := c.mac(secret, Signed(t, p)), c.mac(secret, Signed(u, q));
      HeadersAgree(Show(t), mac, Show(u), nac);
    }
  }

  lemma HeadersAgree(t: string, mac: string, u: string, nac: string)
    requires "t=" + (t + ("," + ("v1=" + mac))) == "t=" + (u + ("," + ("v1=" + nac)))
    requires Lacks(t, ',') && Lacks(u, ',')
    ensures t == u && mac == nac
  {
    var x, y := t + ("," + ("v1=" + mac)), u + ("," + ("v1=" + nac));
    assert x == ("t=" + x)[2..] && y == ("t=" + y)[2..];
    FirstMark(',', t, "v1=" + mac, u, "v1=" + nac);
    assert mac == ("v1=" + mac)[3..] && nac == ("v1=" + nac)[3..];
  }
}
