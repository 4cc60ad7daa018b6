/** The entities the services handle (the files under model/), reduced to the fields the services read or write. */
module Model {

  /** uuid.UUID as its 128-bit value; uuid.Nil is zero. */
  type Uuid = u: nat | u < 0x1_0000_0000_0000_0000_0000_0000_0000_0000

  const Nil: Uuid := 0

  /** The ids uuid.NewUUID yields: a version-1 UUID carries version bits, so it is never Nil. */
  type FreshUuid = u: Uuid | u != Nil witness 1

  function HexChar(d: nat): (c: char)
    requires d < 16
  {
    if d < 10 then ('0' as int + d) as char else ('a' as int + d - 10) as char
  }

  /** The last `k` hexadecimal digits of `v`, most significant first. */
  function HexDigits(v: nat, k: nat): (s: string)
    ensures |s| == k
  {
    if k == 0 then [] else HexDigits(v / 16, k - 1) + [HexChar(v % 16)]
  }

  /** The value of a hexadecimal digit character, the inverse of HexChar. */
  function HexValue(c: char): nat
  {
    if '0' <= c <= '9' then c as int - '0' as int
    else if 'a' <= c <= 'f' then c as int - 'a' as int + 10
    else 0
  }

  /** The number a string of hexadecimal digits denotes, most significant first. */
  function HexNumber(s: string): nat
  {
    if s == [] then 0 else 16 * HexNumber(s[..|s| - 1]) + HexValue(s[|s| - 1])
  }

  function Pow16(k: nat): (p: nat)
    ensures p > 0
  {
    if k == 0 then 1 else 16 * Pow16(k - 1)
  }

  /** 32 hexadecimal digits hold exactly the 128 bits of a uuid. */
  lemma Pow16Of32()
    ensures Pow16(32) == 0x1_0000_0000_0000_0000_0000_0000_0000_0000
  {
    assert Pow16(8) == 0x1_0000_0000;
    assert Pow16(16) == 0x1_0000_0000_0000_0000;
    assert Pow16(24) == 0x1_0000_0000_0000_0000_0000_0000;
  }

  /** The digits of a number below 16^k denote that number again. */
  lemma {:induction false} HexDigitsDenote(v: nat, k: nat)
    requires v < Pow16(k)
    ensures HexNumber(HexDigits(v, k)) == v
  {
    if k > 0 {
      HexDigitsDenote(v / 16, k - 1);
      var h := HexDigits(v, k);
      assert h[..|h| - 1] == HexDigits(v / 16, k - 1);
      assert HexValue(h[|h| - 1]) == v % 16;
    }
  }

  /** The 32 digits of the text, with the four dashes removed. */
  function Undash(s: string): string
    requires |s| == 36
  {
    s[..8] + s[9..13] + s[14..18] + s[19..23] + s[24..]
  }

  /** uuid.UUID.String: 32 lower-case hexadecimal digits grouped 8-4-4-4-12. */
  function UuidText(u: Uuid): (s: string)
    ensures |s| == 36 && s[8] == '-' && s[13] == '-' && s[18] == '-' && s[23] == '-'
    ensures Undash(s) == HexDigits(u, 32)
  {
    var h := HexDigits(u, 32);
    var s := h[..8] + "-" + h[8..12] + "-" + h[12..16] + "-" + h[16..20] + "-" + h[20..];
    assert Undash(s) == h by {
      assert s[..8] == h[..8];
      assert s[9..13] == h[8..12];
      assert s[14..18] == h[12..16];
      assert s[19..23] == h[16..20];
      assert s[24..] == h[20..];
      assert h == h[..8] + h[8..12] + h[12..16] + h[16..20] + h[20..];
    }
    s
  }

  /** Different uuids have different texts, so a text names exactly one uuid. */
  lemma UuidTextInjective(u: Uuid, v: Uuid)
    requires UuidText(u) == UuidText(v)
    ensures u == v
  {
    Pow16Of32();
    HexDigitsDenote(u, 32);
    HexDigitsDenote(v, 32);
  }

  /** model.Organization: its id and name (the audit fields of IdentifiedModel are not read here). */
  datatype Organization = Organization(id: Uuid, name: string)

  /** model.SystemUserOrganization: a user's membership of an organisation with a role. */
  datatype SystemUserOrganization = SystemUserOrganization(
    id: Uuid, systemUserId: Uuid, organizationId: Uuid, userRole: string)

  /** The fields of a model.SystemUser at one moment, as handed to or returned by the user table. */
  datatype UserRecord = UserRecord(
    userId: Uuid, fullNames: string, userName: string, password: string,
    primaryOrganization: Uuid, needsPasswordChange: bool, organizationManaged: bool)

  /** A *model.SystemUser: the services write its UserId, Password and PrimaryOrganization in place. */
  class SystemUser {
    var userId: Uuid
    var fullNames: string
    var userName: string
    var password: string
    var primaryOrganization: Uuid
    var needsPasswordChange: bool
    var organizationManaged: bool

    constructor (r: UserRecord)
      ensures Record() == r
    {
      userId := r.userId;
      fullNames := r.fullNames;
      userName := r.userName;
      password := r.password;
      primaryOrganization := r.primaryOrganization;
      needsPasswordChange := r.needsPasswordChange;
      organizationManaged := r.organizationManaged;
    }

    /** The current field values. */
    function Record(): UserRecord
      reads this
    {
      UserRecord(userId, fullNames, userName, password, primaryOrganization, needsPasswordChange, organizationManaged)
    }
  }
}
