/** UUIDs as thirty-two hexadecimal digits, with the canonical text form. */
module Uuids {
  import opened Text

  predicate IsUuid(u: seq<nat>) { |u| == 32 && forall i :: 0 <= i < 32 ==> u[i] < 16 }

  type Uuid = u: seq<nat> | IsUuid(u)
    witness [0, 0, 0, 0, 0, 0, 0, 0, 0, 0, 0, 0, 0, 0, 0, 0, 0, 0, 0, 0, 0, 0, 0, 0, 0, 0, 0, 0, 0, 0, 0, 0]

  const NIL: Uuid := [
    0, 0, 0, 0, 0, 0, 0, 0, 0, 0, 0, 0, 0, 0, 0, 0, 0, 0, 0, 0, 0, 0, 0, 0, 0, 0, 0, 0, 0, 0, 0, 0]

  function HexDigit(d: nat): (c: char)
    requires d < 16
    ensures HexValue(c) == Some(d)
  {
    if d < 10 then '0' + d as char else 'a' + (d - 10) as char
  }

  function HexValue(c: char): (v: Option<nat>)
    ensures v.Some? ==> v.value < 16
  {
    if '0' <= c <= '9' then Some((c - '0') as nat)
    else if 'a' <= c <= 'f' then Some((c - 'a') as nat + 10)
    else None
  }

  function Digits(u: Uuid): (s: string)
    ensures |s| == 32
    ensures forall i :: 0 <= i < 32 ==> s[i] == HexDigit(u[i])
  {
    seq(32, i requires 0 <= i < 32 => HexDigit(u[i]))
  }

  /** UUID.String: 8-4-4-4-12 digits. */
  function Print(u: Uuid): (s: string)
    ensures |s| == 36
  {
    var h := Digits(u);
    h[..8] + "-" + h[8..12] + "-" + h[12..16] + "-" + h[16..20] + "-" + h[20..]
  }

  /** uuid.Parse on the canonical form. Other forms it accepts are never canonical. */
  function Read(s: string): Option<Uuid> {
    if |s| != 36 || s[8] != '-' || s[13] != '-' || s[18] != '-' || s[23] != '-' then None
    else
      var h := s[..8] + s[9..13] + s[14..18] + s[19..23] + s[24..];
      if forall i :: 0 <= i < 32 ==> HexValue(h[i]).Some? then
        Some(seq(32, i requires 0 <= i < 32 => HexValue(h[i]).value))
      else None
  }

  lemma ReadPrint(u: Uuid)
    ensures Read(Print(u)) == Some(u)
  {
    var h, s := Digits(u), Print(u);
    assert s[..8] == h[..8] && s[9..13] == h[8..12] && s[14..18] == h[12..16] && s[19..23] == h[16..20]
      && s[24..] == h[20..];
    assert h[..8] + h[8..12] + h[12..16] + h[16..20] + h[20..] == h;
    assert forall i :: 0 <= i < 32 ==> HexValue(h[i]) == Some(u[i]);
    assert Read(s).value == u;
  }

  lemma PrintInjective(a: Uuid, b: Uuid)
    requires Print(a) == Print(b)
    ensures a == b
  {
    ReadPrint(a);
    ReadPrint(b);
  }
}
