/** `getUUID` of `src/session/ble.js`: the normal form of a service or
    characteristic identifier. */
module Uuid {
  import opened JsValue

  /** The positions of the dashes in the 8-4-4-4-12 form. */
  predicate IsDashPosition(i: int)
  {
    i == 8 || i == 13 || i == 18 || i == 23
  }

  /** The whole string matches `^[0-9a-f]{8}-[0-9a-f]{4}-[0-9a-f]{4}-[0-9a-f]{4}-[0-9a-f]{12}$`. */
  predicate IsDashedUuid(s: string)
  {
    && |s| == 36
    && forall i :: 0 <= i < 36 ==> if IsDashPosition(i) then s[i] == '-' else IsLowerHex(s[i])
  }

  /** `s.split('-').join('')`. */
  function StripDashes(s: string): (r: string)
    ensures forall i :: 0 <= i < |r| ==> r[i] != '-'
    ensures |r| <= |s|
  {
    if s == [] then []
    else (if s[0] == '-' then [] else [s[0]]) + StripDashes(s[1..])
  }

  /** `getUUID` on a string. */
  function UuidOfString(s: string): (r: string)
    ensures IsDashedUuid(s) ==> |r| == 32 && forall i :: 0 <= i < 32 ==> IsLowerHex(r[i])
    ensures !IsDashedUuid(s) ==> r == s
  {
    if IsDashedUuid(s) then DashedUuidDigits(s); StripDashes(s) else s
  }

  /** `getUUID` on any value: a number becomes its hexadecimal form, a string
      is normalised, and anything else is returned as it is. `None` stands
      for the TypeError thrown when a value that is not a string reads as a
      dashed UUID (an array holding one) and has no `split` to call. */
  function GetUUID(v: Value): (r: Option<Value>)
    ensures r.None? <==> !v.Num? && !v.Str? && IsDashedUuid(ToJsString(v))
    ensures v.Num? ==> r.Some? && r.value.Str?
    ensures v.Str? ==> r == Some(Str(UuidOfString(v.s)))
    ensures r.Some? && !v.Num? && !v.Str? ==> r.value == v
  {
    match v
    case Num(n) => Some(Str(IntToHex(n)))
    case Str(s) => Some(Str(UuidOfString(s)))
    case _ => if IsDashedUuid(ToJsString(v)) then None else Some(v)
  }

  lemma {:induction false} StripDashesOfHex(s: string)
    requires forall i :: 0 <= i < |s| ==> IsLowerHex(s[i])
    ensures StripDashes(s) == s
  {
    if s != [] {
      StripDashesOfHex(s[1..]);
    }
  }

  lemma {:induction false} StripDashesAppend(a: string, b: string)
    ensures StripDashes(a + b) == StripDashes(a) + StripDashes(b)
  {
    if a == [] {
      assert a + b == b;
    } else {
      assert (a + b)[1..] == a[1..] + b;
      StripDashesAppend(a[1..], b);
    }
  }

  /** Dropping the dashes of `x + "-" + y` for hex-only `x` keeps `x` as it is. */
  lemma StripDashesAfterHex(x: string, y: string)
    requires forall i :: 0 <= i < |x| ==> IsLowerHex(x[i])
    ensures StripDashes(x + "-" + y) == x + StripDashes(y)
  {
    var dash: string := ['-'];
    assert StripDashes(dash) == [] by {
      assert dash[1..] == [];
    }
    var xd := x + dash;
    assert x + "-" + y == xd + y;
    StripDashesAppend(xd, y);
    StripDashesAppend(x, dash);
    StripDashesOfHex(x);
    assert StripDashes(xd) == x;
  }

  /** A dashed UUID loses exactly its four dashes: 32 lower-case hex digits
      remain, in order. */
  lemma DashedUuidNormalForm(s: string)
    requires IsDashedUuid(s)
    ensures var r := UuidOfString(s);
      && r == s[..8] + s[9..13] + s[14..18] + s[19..23] + s[24..]
      && |r| == 32
      && forall i :: 0 <= i < 32 ==> IsLowerHex(r[i])
  {
    DashedUuidDigits(s);
  }

  /** Removing the dashes of a dashed UUID leaves its five groups of hex
      digits, joined. */
  lemma DashedUuidDigits(s: string)
    requires IsDashedUuid(s)
    ensures var r := StripDashes(s);
      && r == s[..8] + s[9..13] + s[14..18] + s[19..23] + s[24..]
      && |r| == 32
      && forall i :: 0 <= i < 32 ==> IsLowerHex(r[i])
  {
    var g1, g2, g3, g4, g5 := s[..8], s[9..13], s[14..18], s[19..23], s[24..];
    var t4 := g5;
    var t3 := g4 + "-" + t4;
    var t2 := g3 + "-" + t3;
    var t1 := g2 + "-" + t2;
    assert s == g1 + "-" + t1;
    StripDashesOfHex(g5);
    StripDashesAfterHex(g4, t4);
    StripDashesAfterHex(g3, t3);
    StripDashesAfterHex(g2, t2);
    StripDashesAfterHex(g1, t1);
    var r := g1 + g2 + g3 + g4 + g5;
    assert StripDashes(s) == r;
    assert forall i :: 0 <= i < 32 ==> IsLowerHex(r[i]) by {
      forall i | 0 <= i < 32 ensures IsLowerHex(r[i]) {
        if i < 8 { assert r[i] == s[i]; }
        else if i < 12 { assert r[i] == s[i + 1]; }
        else if i < 16 { assert r[i] == s[i + 2]; }
        else if i < 20 { assert r[i] == s[i + 3]; }
        else { assert r[i] == s[i + 4]; }
      }
    }
  }

  /** A non-negative numeric id becomes hex digits that read back as it. */
  lemma GetUUIDNumValue(n: nat)
    ensures var u := GetUUID(Num(n)).value.s;
      && (forall i :: 0 <= i < |u| ==> IsLowerHex(u[i]))
      && HexValue(u) == n
  {
    IntToHexValue(n);
  }

  /** Two numeric ids normalise to the same uuid only when they are equal. */
  lemma GetUUIDNumInjective(m: int, n: int)
    requires GetUUID(Num(m)) == GetUUID(Num(n))
    ensures m == n
  {
    IntToHexInjective(m, n);
  }

  /** `getUUID` is idempotent: whatever it returns, it returns unchanged. */
  lemma GetUUIDIdempotent(v: Value)
    requires GetUUID(v).Some?
    ensures GetUUID(GetUUID(v).value) == GetUUID(v)
  {
    match v
    case Num(n) =>
      var h := IntToHex(n);
      assert !IsDashedUuid(h) by {
        if |h| == 36 {
          assert IsLowerHex(h[8]);
        }
      }
    case _ =>
  }
}
