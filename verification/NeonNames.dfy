/** The text of a Neon role name: a short piece of the user id and all of the lease id. */
module NeonNames {
  import opened Wrappers

  predicate AlphaNumeric(c: char) {
    'A' <= c <= 'Z' || 'a' <= c <= 'z' || '0' <= c <= '9'
  }

  function LowerChar(c: char): char {
    if 'A' <= c <= 'Z' then 'a' + (c - 'A') else c
  }

  /** Everything but letters and digits removed, in lower case. */
  function Squeeze(s: string): string {
    if s == "" then "" else SqueezeOne(s[0]) + Squeeze(s[1..])
  }

  function SqueezeOne(c: char): string {
    if AlphaNumeric(c) then [LowerChar(c)] else []
  }

  function Take(s: string, n: nat): string {
    if |s| < n then s else s[..n]
  }

  function RoleName(user: string, lease: string): Result<string, string> {
    var u, l := Take(Squeeze(user), 8), Take(Squeeze(lease), 32);
    if u == "" || l == "" then Err("Invalid Neon lease identity") else Ok("dopedb_" + u + "_" + l)
  }

  predicate LowerHex(c: char) {
    'a' <= c <= 'f' || '0' <= c <= '9'
  }

  predicate DashAt(i: int) {
    i == 8 || i == 13 || i == 18 || i == 23
  }

  /** The canonical text of a UUID (section 4 of RFC 9562). */
  predicate IsUuid(s: string) {
    && |s| == 36
    && forall i :: 0 <= i < 36 ==> if DashAt(i) then s[i] == '-' else LowerHex(s[i])
  }

  lemma {:induction false} SqueezeConcat(a: string, b: string)
    ensures Squeeze(a + b) == Squeeze(a) + Squeeze(b)
  {
    hide SqueezeOne;
    if a == "" {
      assert a + b == b;
    } else {
      SqueezeConcat(a[1..], b);
      assert (a + b)[1..] == a[1..] + b && (a + b)[0] == a[0];
      calc {
        Squeeze(a + b);
        SqueezeOne(a[0]) + (Squeeze(a[1..]) + Squeeze(b));
        (SqueezeOne(a[0]) + Squeeze(a[1..])) + Squeeze(b);
      }
    }
  }

  lemma {:induction false} SqueezeHex(s: string)
    requires forall i :: 0 <= i < |s| ==> LowerHex(s[i])
    ensures Squeeze(s) == s
  {
    if s != "" {
      SqueezeHex(s[1..]);
    }
  }

  lemma SqueezeDash(s: string)
    requires s != "" && s[0] == '-'
    ensures Squeeze(s) == Squeeze(s[1..])
  {
  }

  lemma SqueezeAtDash(s: string, i: nat)
    requires i < |s| && s[i] == '-' && forall k :: 0 <= k < i ==> LowerHex(s[k])
    ensures Squeeze(s) == s[..i] + Squeeze(s[i + 1..])
  {
    hide Squeeze;
    assert s == s[..i] + s[i..];
    SqueezeConcat(s[..i], s[i..]);
    SqueezeHex(s[..i]);
    SqueezeDash(s[i..]);
    assert s[i..][1..] == s[i + 1..];
  }

  lemma SqueezeUuid(s: string)
    requires IsUuid(s)
    ensures Squeeze(s) == s[..8] + (s[9..13] + (s[14..18] + (s[19..23] + s[24..])))
  {
    hide Squeeze, LowerHex;
    SqueezeAtDash(s, 8);
    SqueezeAtDash(s[9..], 4);
    assert s[9..][..4] == s[9..13] && s[9..][5..] == s[14..];
    SqueezeAtDash(s[14..], 4);
    assert s[14..][..4] == s[14..18] && s[14..][5..] == s[19..];
    SqueezeAtDash(s[19..], 4);
    assert s[19..][..4] == s[19..23] && s[19..][5..] == s[24..];
    SqueezeHex(s[24..]);
  }

  lemma UuidFromSqueeze(a: string, b: string)
    requires IsUuid(a) && IsUuid(b) && Squeeze(a) == Squeeze(b)
    ensures a == b
  {
    hide Squeeze, LowerHex;
    SqueezeUuid(a);
    SqueezeUuid(b);
    var x, y := Squeeze(a), Squeeze(b);
    assert a[..8] == x[..8] && b[..8] == y[..8];
    assert a[9..13] == x[8..12] && b[9..13] == y[8..12];
    assert a[14..18] == x[12..16] && b[14..18] == y[12..16];
    assert a[19..23] == x[16..20] && b[19..23] == y[16..20];
    assert a[24..] == x[20..] && b[24..] == y[20..];
    assert a == a[..8] + "-" + a[9..13] + "-" + a[14..18] + "-" + a[19..23] + "-" + a[24..];
    assert b == b[..8] + "-" + b[9..13] + "-" + b[14..18] + "-" + b[19..23] + "-" + b[24..];
  }

  /** Two leases never share a role name, whoever their users are: a cleanup that derives the name
      from a pending lease cannot hit another lease's role. */
  lemma RoleNamesAreUnique(u: string, a: string, v: string, b: string)
    requires IsUuid(a) && IsUuid(b)
    requires RoleName(u, a).Ok? && RoleName(u, a) == RoleName(v, b)
    ensures a == b
  {
    hide Squeeze, LowerHex;
    SqueezeUuid(a);
    SqueezeUuid(b);
    var n, m := RoleName(u, a).value, RoleName(v, b).value;
    assert n[|n| - 32..] == Squeeze(a);
    assert m[|m| - 32..] == Squeeze(b);
    UuidFromSqueeze(a, b);
  }

  predicate RoleChar(c: char) {
    'a' <= c <= 'z' || '0' <= c <= '9'
  }

  predicate RolePart(part: string, most: nat) {
    1 <= |part| <= most && forall i :: 0 <= i < |part| ==> RoleChar(part[i])
  }

  /** What revocation accepts: dopedb_, one to eight, an underscore, one to thirty-two. */
  ghost predicate AcceptedRole(name: string) {
    exists u, l :: RolePart(u, 8) && RolePart(l, 32) && name == "dopedb_" + u + "_" + l
  }

  lemma {:induction false} SqueezeChars(s: string)
    ensures forall i :: 0 <= i < |Squeeze(s)| ==> RoleChar(Squeeze(s)[i])
  {
    if s != "" {
      SqueezeChars(s[1..]);
    }
  }

  /** Every name that issuance derives passes the pattern that revocation insists on. */
  lemma IssuedNamesAreRevocable(user: string, lease: string)
    requires RoleName(user, lease).Ok?
    ensures AcceptedRole(RoleName(user, lease).value)
  {
    hide Squeeze, RoleChar;
    SqueezeChars(user);
    SqueezeChars(lease);
    var u, l := Take(Squeeze(user), 8), Take(Squeeze(lease), 32);
    assert RolePart(u, 8) && RolePart(l, 32);
  }

  /** What one character becomes, by character codes: a capital its small letter, a small letter or a
      digit itself, everything else nothing. With SqueezeConcat this is what any text becomes. */
  lemma SqueezeOneExactly(c: char)
    ensures var n := c as int;
            Squeeze([c]) == if 65 <= n <= 90 then [(n + 32) as char]
                            else if 97 <= n <= 122 || 48 <= n <= 57 then [c]
                            else []
  {
    assert Squeeze([c]) == SqueezeOne(c) + Squeeze("");
  }

  /** The name of a role: the prefix, the first eight letters and digits of the user id, an underscore and
      the thirty-two digits of the lease id. */
  lemma RoleNameParts(user: string, lease: string)
    requires IsUuid(lease)
    ensures RoleName(user, lease).Ok? <==> exists i :: 0 <= i < |user| && AlphaNumeric(user[i])
    ensures RoleName(user, lease).Ok? ==>
              var u := Squeeze(user);
              RoleName(user, lease).value
              == "dopedb_" + (if |u| <= 8 then u else u[..8]) + "_"
                 + lease[..8] + lease[9..13] + lease[14..18] + lease[19..23] + lease[24..]
  {
    hide Squeeze;
    SqueezeUuid(lease);
    NothingSqueezed(user);
    var l := Squeeze(lease);
    assert |l| == 32 && l == lease[..8] + lease[9..13] + lease[14..18] + lease[19..23] + lease[24..];
    var u := Take(Squeeze(user), 8);
    assert "dopedb_" + u + "_" + l == "dopedb_" + u + "_" + lease[..8] + lease[9..13] + lease[14..18] + lease[19..23] + lease[24..];
  }

  lemma {:induction false} NothingSqueezed(s: string)
    ensures Squeeze(s) != "" <==> exists i :: 0 <= i < |s| && AlphaNumeric(s[i])
  {
    if s != "" {
      NothingSqueezed(s[1..]);
      if i :| 0 <= i < |s[1..]| && AlphaNumeric(s[1..][i]) {
        assert AlphaNumeric(s[i + 1]);
      }
      if i :| 0 <= i < |s| && AlphaNumeric(s[i]) {
        assert i > 0 ==> s[1..][i - 1] == s[i];
      }
    }
  }
}
