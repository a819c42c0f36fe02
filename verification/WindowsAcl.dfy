/** The ordered access check on Windows paths, done twice: for the diagnosis and for the gateway key. */
module WindowsAcl {

  // ---- rights ----

  const READ_DATA: bv32 := 0x00000001
  const WRITE_DATA: bv32 := 0x00000002
  const APPEND_DATA: bv32 := 0x00000004
  const READ_EA: bv32 := 0x00000008
  const WRITE_EA: bv32 := 0x00000010
  const EXECUTE: bv32 := 0x00000020
  const DELETE_CHILD: bv32 := 0x00000040
  const READ_ATTRIBUTES: bv32 := 0x00000080
  const WRITE_ATTRIBUTES: bv32 := 0x00000100
  const DELETE: bv32 := 0x00010000
  const READ_CONTROL: bv32 := 0x00020000
  const WRITE_DAC: bv32 := 0x00040000
  const WRITE_OWNER: bv32 := 0x00080000
  const SYNCHRONIZE: bv32 := 0x00100000
  const GENERIC_ALL: bv32 := 0x10000000
  const GENERIC_EXECUTE: bv32 := 0x20000000
  const GENERIC_WRITE: bv32 := 0x40000000
  const GENERIC_READ: bv32 := 0x80000000
  const CONCRETE_RIGHTS: bv32 := 0x001f01ff
  const UNKNOWN_RIGHTS: bv32 := !CONCRETE_RIGHTS

  const INTEGRITY_FORBIDDEN: bv32 := 0x000d0156
  const ANCESTOR_FORBIDDEN: bv32 := 0x000d0040
  const CONFIDENTIALITY_FORBIDDEN: bv32 := 0x000d01ff

  const EXECUTABLE_REQUIRED: bv32 := 0x000000a1
  const PATH_DIRECTORY_REQUIRED: bv32 := 0x000000a1
  const PRIVATE_ANCESTOR_REQUIRED: bv32 := 0x00000020
  const CONFIG_HOME_REQUIRED: bv32 := 0x000000e7
  const CREDENTIAL_REQUIRED: bv32 := 0x00000081

  const INHERIT_ONLY: bv8 := 0x08
  const VALID_FLAGS: bv8 := 0x1f

  // ---- evidence ----

  type Sid = string

  const LOCAL_SYSTEM: Sid := "S-1-5-18"
  const ADMINISTRATORS: Sid := "S-1-5-32-544"
  const TRUSTED_INSTALLER: Sid := "S-1-5-80-956008885-3418522649-1831038044-1853292631-2271478464"

  datatype AceKind = UnknownKind | Allow | Deny

  datatype Ace = Ace(kind: AceKind, flags: bv8, mask: bv32, sid: Sid)

  datatype Group = Group(sid: Sid, enabled: bool, denyOnly: bool)

  datatype Token = Token(supported: bool, user: Sid, groups: seq<Group>)

  datatype Object = UnknownObject | FileObject | DirectoryObject

  datatype FileId = FileId(volume: nat, index: nat)

  /** `pathValid` says that the canonical path has a comparison key. */
  datatype Snapshot = Snapshot(descriptorSupported: bool, daclPresent: bool, daclNull: bool, object_: Object, owner: Sid, token: Token,
                               aces: seq<Ace>, reparse: bool, openedId: FileId, reopenedId: FileId, pathValid: bool)

  datatype KeyEvidence = KeyEvidence(descriptorSupported: bool, daclPresent: bool, daclProtected: bool, daclNull: bool,
                                     owner: Sid, aces: seq<Ace>)

  predicate IsDigit(c: char) {
    '0' <= c <= '9'
  }

  /** "S-" and at least two groups of digits separated by single dashes. */
  predicate ValidSid(sid: Sid) {
    && |sid| >= 5 && sid[..2] == "S-" && IsDigit(sid[2]) && IsDigit(sid[|sid| - 1])
    && (forall k :: 2 <= k < |sid| ==> IsDigit(sid[k]) || (sid[k] == '-' && IsDigit(sid[k - 1])))
    && '-' in sid[2..]
  }

  predicate ValidToken(t: Token) {
    && ValidSid(t.user)
    && (forall g <- t.groups :: ValidSid(g.sid) && !(g.enabled && g.denyOnly))
    && (forall i, j :: 0 <= i < j < |t.groups| ==> t.groups[i].sid != t.groups[j].sid)
  }

  // ---- the policies ----

  datatype Policy = UnknownPolicy | ExecutablePolicy | PathDirectoryPolicy | PrivateAncestorPolicy | PathAncestorPolicy
                  | ConfigHomePolicy | CredentialPolicy

  datatype Rule = Rule(object_: Object, required: bv32, forbidden: bv32, ownerMustBeUser: bool, trustInstaller: bool)

  predicate HasRule(p: Policy) {
    !p.UnknownPolicy?
  }

  function PolicyRule(p: Policy): Rule
    requires HasRule(p)
  {
    match p
    case ExecutablePolicy => Rule(FileObject, EXECUTABLE_REQUIRED, INTEGRITY_FORBIDDEN, false, true)
    case PathDirectoryPolicy => Rule(DirectoryObject, PATH_DIRECTORY_REQUIRED, INTEGRITY_FORBIDDEN, false, true)
    case PrivateAncestorPolicy => Rule(DirectoryObject, PRIVATE_ANCESTOR_REQUIRED, ANCESTOR_FORBIDDEN, false, true)
    case PathAncestorPolicy => Rule(DirectoryObject, PATH_DIRECTORY_REQUIRED, ANCESTOR_FORBIDDEN, false, true)
    case ConfigHomePolicy => Rule(DirectoryObject, CONFIG_HOME_REQUIRED, CONFIDENTIALITY_FORBIDDEN, true, false)
    case CredentialPolicy => Rule(FileObject, CREDENTIAL_REQUIRED, CONFIDENTIALITY_FORBIDDEN, true, false)
  }

  predicate TrustedGrant(sid: Sid, user: Sid, trustInstaller: bool) {
    sid == user || sid == LOCAL_SYSTEM || sid == ADMINISTRATORS || (trustInstaller && sid == TRUSTED_INSTALLER)
  }

  predicate AppliesToAllow(t: Token, sid: Sid) {
    sid == t.user || exists g <- t.groups :: g.sid == sid && g.enabled
  }

  predicate AppliesToDeny(t: Token, sid: Sid) {
    sid == t.user || exists g <- t.groups :: g.sid == sid && (g.enabled || g.denyOnly)
  }

  /** The rights a generic right stands for, when the mask has it. */
  function Part(mask: bv32, generic: bv32, rights: bv32): bv32 {
    if mask & generic != 0 then rights else 0
  }

  function Concrete(mask: bv32): bv32 {
    mask & !(GENERIC_READ | GENERIC_WRITE | GENERIC_EXECUTE | GENERIC_ALL)
  }

  /** The rights of both masks. */
  function Both(mask: bv32, rights: bv32): bv32 {
    mask | rights
  }

  function ExpandGeneric(mask: bv32): bv32 {
    var read := Part(mask, GENERIC_READ, READ_CONTROL | READ_DATA | READ_EA | READ_ATTRIBUTES | SYNCHRONIZE);
    var write := Part(mask, GENERIC_WRITE, READ_CONTROL | WRITE_DATA | APPEND_DATA | WRITE_EA | WRITE_ATTRIBUTES | SYNCHRONIZE);
    var execute := Part(mask, GENERIC_EXECUTE, READ_CONTROL | EXECUTE | READ_ATTRIBUTES | SYNCHRONIZE);
    Both(Both(Both(Both(Concrete(mask), read), write), execute), Part(mask, GENERIC_ALL, CONCRETE_RIGHTS))
  }

  /** The two masks have a right in common. */
  predicate Overlap(mask: bv32, rights: bv32) {
    mask & rights != 0
  }

  predicate Supported(mask: bv32) {
    !Overlap(ExpandGeneric(mask), UNKNOWN_RIGHTS)
  }

  function Remove(rights: bv32, mask: bv32): bv32 {
    rights & !mask
  }

  predicate KnownFlags(flags: bv8) {
    flags & !VALID_FLAGS == 0
  }

  predicate Effective(a: Ace) {
    a.flags & INHERIT_ONLY == 0
  }

  // ---- the specification: the first applicable entry decides each right ----

  ghost predicate OneRight(right: bv32) {
    right != 0 && right & (right - 1) == 0
  }

  predicate Concerns(t: Token, a: Ace, right: bv32) {
    && Effective(a) && Overlap(ExpandGeneric(a.mask), right)
    && ((a.kind.Allow? && AppliesToAllow(t, a.sid)) || (a.kind.Deny? && AppliesToDeny(t, a.sid)))
  }

  /** The first entry that concerns the right allows it; without one it is not granted. */
  predicate Granted(t: Token, aces: seq<Ace>, right: bv32) {
    aces != [] && if Concerns(t, aces[0], right) then aces[0].kind.Allow? else Granted(t, aces[1..], right)
  }

  ghost predicate AllGranted(t: Token, aces: seq<Ace>, rights: bv32) {
    forall right: bv32 :: OneRight(right) && Overlap(right, rights) ==> Granted(t, aces, right)
  }

  predicate WellFormed(a: Ace) {
    !a.kind.UnknownKind? && KnownFlags(a.flags) && ValidSid(a.sid) && Supported(a.mask)
  }

  /** No untrusted entry in effect grants a forbidden right. */
  predicate NothingForbidden(t: Token, a: Ace, forbidden: bv32, trustInstaller: bool) {
    Effective(a) && a.kind.Allow? && !TrustedGrant(a.sid, t.user, trustInstaller) ==> !Overlap(ExpandGeneric(a.mask), forbidden)
  }

  ghost predicate Secure(t: Token, aces: seq<Ace>, required: bv32, forbidden: bv32, trustInstaller: bool) {
    && (forall a <- aces :: WellFormed(a) && NothingForbidden(t, a, forbidden, trustInstaller))
    && AllGranted(t, aces, required)
  }

  // ---- what the policies are for, right by right ----

  /** Reading and running what is used, writing only in a configuration home, passing through a private ancestor. */
  ghost predicate Wanted(p: Policy, right: bv32) {
    || (right == EXECUTE && p != CredentialPolicy)
    || (right in {READ_DATA, READ_ATTRIBUTES} && p != PrivateAncestorPolicy)
    || (right in {WRITE_DATA, APPEND_DATA, DELETE_CHILD} && p == ConfigHomePolicy)
  }

  /** Nobody untrusted may replace anything, change what is used, or read what is confidential. */
  ghost predicate Dangerous(p: Policy, right: bv32) {
    || right in {DELETE, DELETE_CHILD, WRITE_DAC, WRITE_OWNER}
    || (right in {WRITE_DATA, APPEND_DATA, WRITE_EA, WRITE_ATTRIBUTES} && p !in {PrivateAncestorPolicy, PathAncestorPolicy})
    || (right in {READ_DATA, READ_EA, READ_ATTRIBUTES, EXECUTE} && p in {ConfigHomePolicy, CredentialPolicy})
  }

  /** Each policy asks for the rights that are wanted and forbids those that are dangerous, of its own kind of object and owner. */
  lemma PolicyRights(p: Policy, right: bv32)
    requires HasRule(p) && OneRight(right)
    ensures Overlap(right, PolicyRule(p).required) <==> Wanted(p, right)
    ensures Overlap(right, PolicyRule(p).forbidden) <==> Dangerous(p, right)
    ensures PolicyRule(p).object_ == if p in {ExecutablePolicy, CredentialPolicy} then FileObject else DirectoryObject
    ensures PolicyRule(p).ownerMustBeUser <==> p in {ConfigHomePolicy, CredentialPolicy}
    ensures PolicyRule(p).trustInstaller <==> !PolicyRule(p).ownerMustBeUser
  {
  }

  // ---- the evaluation, said of rights and entries ----

  /** A right a mask grants: one of its own bits, or one of those a generic right stands for. */
  ghost predicate Grants(mask: bv32, right: bv32) {
    || (mask & right != 0 && right !in {GENERIC_READ, GENERIC_WRITE, GENERIC_EXECUTE, GENERIC_ALL})
    || (mask & GENERIC_READ != 0 && right in {READ_DATA, READ_EA, READ_ATTRIBUTES, READ_CONTROL, SYNCHRONIZE})
    || (mask & GENERIC_WRITE != 0 && right in {WRITE_DATA, APPEND_DATA, WRITE_EA, WRITE_ATTRIBUTES, READ_CONTROL, SYNCHRONIZE})
    || (mask & GENERIC_EXECUTE != 0 && right in {EXECUTE, READ_ATTRIBUTES, READ_CONTROL, SYNCHRONIZE})
    || (mask & GENERIC_ALL != 0 && right & 0x001f01ff != 0)
  }

  lemma OverlapJoins(a: bv32, b: bv32, right: bv32)
    ensures Overlap(Both(a, b), right) <==> Overlap(a, right) || Overlap(b, right)
  {
    JoinedBits(a, b, right);
    hide Overlap;
  }

  lemma JoinedBits(a: bv32, b: bv32, right: bv32)
    ensures Overlap(a | b, right) <==> Overlap(a, right) || Overlap(b, right)
  {
    Distributes(a, b, right);
    NothingInBoth(a & right, b & right);
  }

  lemma Distributes(a: bv32, b: bv32, c: bv32)
    ensures (a | b) & c == (a & c) | (b & c)
  {
  }

  lemma NothingInBoth(a: bv32, b: bv32)
    ensures a | b == 0 <==> a == 0 && b == 0
  {
  }

  lemma ConcreteIs(mask: bv32, right: bv32)
    requires OneRight(right)
    ensures Overlap(Concrete(mask), right) <==> mask & right != 0 && right !in {GENERIC_READ, GENERIC_WRITE, GENERIC_EXECUTE, GENERIC_ALL}
  {
    GenericBits(right);
    Grouped(mask, !(GENERIC_READ | GENERIC_WRITE | GENERIC_EXECUTE | GENERIC_ALL), right);
    hide OneRight;
  }

  lemma GenericBits(right: bv32)
    requires OneRight(right)
    ensures !(GENERIC_READ | GENERIC_WRITE | GENERIC_EXECUTE | GENERIC_ALL) & right
            == if right in {GENERIC_READ, GENERIC_WRITE, GENERIC_EXECUTE, GENERIC_ALL} then 0 else right
  {
  }

  lemma Grouped(a: bv32, b: bv32, c: bv32)
    ensures (a & b) & c == a & (b & c) && a & 0 == 0
  {
  }

  lemma GenericsAre(right: bv32)
    requires OneRight(right)
    ensures Overlap(READ_CONTROL | READ_DATA | READ_EA | READ_ATTRIBUTES | SYNCHRONIZE, right)
            <==> right in {READ_DATA, READ_EA, READ_ATTRIBUTES, READ_CONTROL, SYNCHRONIZE}
    ensures Overlap(READ_CONTROL | WRITE_DATA | APPEND_DATA | WRITE_EA | WRITE_ATTRIBUTES | SYNCHRONIZE, right)
            <==> right in {WRITE_DATA, APPEND_DATA, WRITE_EA, WRITE_ATTRIBUTES, READ_CONTROL, SYNCHRONIZE}
    ensures Overlap(READ_CONTROL | EXECUTE | READ_ATTRIBUTES | SYNCHRONIZE, right)
            <==> right in {EXECUTE, READ_ATTRIBUTES, READ_CONTROL, SYNCHRONIZE}
    ensures Overlap(CONCRETE_RIGHTS, right) <==> right & 0x001f01ff != 0
    ensures !Overlap(0, right)
  {
  }

  /** What overlaps an expanded mask overlaps one of its parts. */
  lemma PartsOverlap(mask: bv32, right: bv32)
    ensures Overlap(ExpandGeneric(mask), right) <==>
            || Overlap(Concrete(mask), right)
            || Overlap(Part(mask, GENERIC_READ, READ_CONTROL | READ_DATA | READ_EA | READ_ATTRIBUTES | SYNCHRONIZE), right)
            || Overlap(Part(mask, GENERIC_WRITE, READ_CONTROL | WRITE_DATA | APPEND_DATA | WRITE_EA | WRITE_ATTRIBUTES | SYNCHRONIZE), right)
            || Overlap(Part(mask, GENERIC_EXECUTE, READ_CONTROL | EXECUTE | READ_ATTRIBUTES | SYNCHRONIZE), right)
            || Overlap(Part(mask, GENERIC_ALL, CONCRETE_RIGHTS), right)
  {
    var read := Part(mask, GENERIC_READ, READ_CONTROL | READ_DATA | READ_EA | READ_ATTRIBUTES | SYNCHRONIZE);
    var write := Part(mask, GENERIC_WRITE, READ_CONTROL | WRITE_DATA | APPEND_DATA | WRITE_EA | WRITE_ATTRIBUTES | SYNCHRONIZE);
    var execute := Part(mask, GENERIC_EXECUTE, READ_CONTROL | EXECUTE | READ_ATTRIBUTES | SYNCHRONIZE);
    OverlapJoins(Concrete(mask), read, right);
    OverlapJoins(Both(Concrete(mask), read), write, right);
    OverlapJoins(Both(Both(Concrete(mask), read), write), execute, right);
    OverlapJoins(Both(Both(Both(Concrete(mask), read), write), execute), Part(mask, GENERIC_ALL, CONCRETE_RIGHTS), right);
    hide Overlap, Concrete, Both, Part;
  }

  lemma PartIs(mask: bv32, generic: bv32, rights: bv32, right: bv32)
    requires !Overlap(0, right)
    ensures Overlap(Part(mask, generic, rights), right) <==> mask & generic != 0 && Overlap(rights, right)
  {
    hide Overlap;
  }

  /** Expanding the generic rights of a mask gives exactly the rights it grants. */
  lemma GrantsIs(mask: bv32, right: bv32)
    requires OneRight(right)
    ensures Overlap(ExpandGeneric(mask), right) <==> Grants(mask, right)
  {
    PartsOverlap(mask, right);
    ConcreteIs(mask, right);
    GenericsAre(right);
    PartIs(mask, GENERIC_READ, READ_CONTROL | READ_DATA | READ_EA | READ_ATTRIBUTES | SYNCHRONIZE, right);
    PartIs(mask, GENERIC_WRITE, READ_CONTROL | WRITE_DATA | APPEND_DATA | WRITE_EA | WRITE_ATTRIBUTES | SYNCHRONIZE, right);
    PartIs(mask, GENERIC_EXECUTE, READ_CONTROL | EXECUTE | READ_ATTRIBUTES | SYNCHRONIZE, right);
    PartIs(mask, GENERIC_ALL, CONCRETE_RIGHTS, right);
    hide Overlap, OneRight, Concrete, Part, ExpandGeneric;
  }

  /** A mask is supported when it has no bit but the concrete rights and the four generic ones. */
  lemma SupportedIs(mask: bv32)
    ensures Supported(mask) <==> mask & 0x0fe0fe00 == 0
  {
    PartsOverlap(mask, UNKNOWN_RIGHTS);
    GenericsSupported();
    UnknownBits(mask);
    PartIs(mask, GENERIC_READ, READ_CONTROL | READ_DATA | READ_EA | READ_ATTRIBUTES | SYNCHRONIZE, UNKNOWN_RIGHTS);
    PartIs(mask, GENERIC_WRITE, READ_CONTROL | WRITE_DATA | APPEND_DATA | WRITE_EA | WRITE_ATTRIBUTES | SYNCHRONIZE, UNKNOWN_RIGHTS);
    PartIs(mask, GENERIC_EXECUTE, READ_CONTROL | EXECUTE | READ_ATTRIBUTES | SYNCHRONIZE, UNKNOWN_RIGHTS);
    PartIs(mask, GENERIC_ALL, CONCRETE_RIGHTS, UNKNOWN_RIGHTS);
    hide Overlap, Concrete, Part, ExpandGeneric, UNKNOWN_RIGHTS;
  }

  lemma GenericsSupported()
    ensures !Overlap(READ_CONTROL | READ_DATA | READ_EA | READ_ATTRIBUTES | SYNCHRONIZE, UNKNOWN_RIGHTS)
    ensures !Overlap(READ_CONTROL | WRITE_DATA | APPEND_DATA | WRITE_EA | WRITE_ATTRIBUTES | SYNCHRONIZE, UNKNOWN_RIGHTS)
    ensures !Overlap(READ_CONTROL | EXECUTE | READ_ATTRIBUTES | SYNCHRONIZE, UNKNOWN_RIGHTS)
    ensures !Overlap(CONCRETE_RIGHTS, UNKNOWN_RIGHTS) && !Overlap(0, UNKNOWN_RIGHTS)
  {
  }

  lemma UnknownBits(mask: bv32)
    ensures Overlap(Concrete(mask), UNKNOWN_RIGHTS) <==> mask & 0x0fe0fe00 != 0
  {
  }

  lemma FlagsAre(a: Ace)
    ensures KnownFlags(a.flags) <==> a.flags < 0x20
    ensures Effective(a) <==> (a.flags / 8) % 2 == 0
  {
  }

  /** Groups of digits, each after a dash. */
  ghost function Dashed(groups: seq<string>): string {
    if groups == [] then "" else "-" + groups[0] + Dashed(groups[1..])
  }

  ghost predicate Digits(s: string) {
    s != "" && forall c <- s :: '0' <= c <= '9'
  }

  ghost predicate NumericSid(sid: Sid) {
    exists groups: seq<string> :: |groups| >= 2 && (forall g <- groups :: Digits(g)) && sid == "S" + Dashed(groups)
  }

  /** What a text of dashed groups looks like, character by character. */
  predicate DashedShape(s: string) {
    && |s| >= 2 && s[0] == '-' && IsDigit(s[1]) && IsDigit(s[|s| - 1])
    && forall k | 1 <= k < |s| :: IsDigit(s[k]) || (s[k] == '-' && IsDigit(s[k - 1]))
  }

  lemma {:induction false} DashedHasShape(groups: seq<string>)
    requires groups != [] && forall g <- groups :: Digits(g)
    ensures DashedShape(Dashed(groups)) && (|groups| >= 2 <==> '-' in Dashed(groups)[1..])
  {
    var g, rest := groups[0], Dashed(groups[1..]);
    assert Digits(g);
    if |groups| == 1 {
      assert Dashed(groups[1..]) == "";
    } else {
      DashedHasShape(groups[1..]);
    }
    OneGroup(g, rest);
  }

  lemma OneGroup(g: string, rest: string)
    requires Digits(g) && (rest == "" || DashedShape(rest))
    ensures DashedShape("-" + g + rest) && (rest != "" <==> '-' in ("-" + g + rest)[1..])
  {
    var s := "-" + g + rest;
    forall k | 1 <= k <= |g|
      ensures s[k] == g[k - 1] && IsDigit(s[k])
    {
      assert g[k - 1] in g;
    }
    forall k | 0 <= k < |rest|
      ensures s[1 + |g| + k] == rest[k]
    {
    }
    if rest != "" {
      assert s[1..][|g|] == '-';
      forall k | 1 <= k < |s|
        ensures IsDigit(s[k]) || (s[k] == '-' && IsDigit(s[k - 1]))
      {
        if k > |g| + 1 {
          var i := k - 1 - |g|;
          assert s[1 + |g| + i] == rest[i] && s[1 + |g| + (i - 1)] == rest[i - 1];
        }
      }
      assert s[1 + |g| + (|rest| - 1)] == rest[|rest| - 1];
    }
  }

  /** The end of the digits that start at the second character. */
  function GroupEnd(s: string, from: nat): (end: nat)
    requires from <= |s|
    ensures from <= end <= |s| && (forall k | from <= k < end :: IsDigit(s[k])) && (end < |s| ==> !IsDigit(s[end]))
    decreases |s| - from
  {
    if from < |s| && IsDigit(s[from]) then GroupEnd(s, from + 1) else from
  }

  lemma {:induction false} ShapeIsDashed(s: string) returns (groups: seq<string>)
    requires DashedShape(s)
    ensures groups != [] && (forall g <- groups :: Digits(g)) && s == Dashed(groups)
    decreases |s|
  {
    var end := GroupEnd(s, 1);
    var g := s[1..end];
    assert Digits(g);
    if end == |s| {
      groups := [g];
      assert s == "-" + g + "";
    } else {
      var rest := s[end..];
      assert rest[0] == '-' && rest[1] == s[end + 1];
      forall k | 1 <= k < |rest|
        ensures IsDigit(rest[k]) || (rest[k] == '-' && IsDigit(rest[k - 1]))
      {
        assert rest[k] == s[end + k] && rest[k - 1] == s[end + k - 1];
      }
      var more := ShapeIsDashed(rest);
      groups := [g] + more;
      assert groups[1..] == more && s == "-" + g + rest;
    }
  }

  /** The shape test accepts exactly "S" followed by two or more groups of digits, each after a dash. */
  lemma ValidSidIs(sid: Sid)
    ensures ValidSid(sid) <==> NumericSid(sid)
  {
    if ValidSid(sid) {
      var s := sid[1..];
      SidHasShape(sid);
      var groups := ShapeIsDashed(s);
      DashedHasShape(groups);
      assert s[1..] == sid[2..] && sid == "S" + s;
    }
    if groups: seq<string> :| |groups| >= 2 && (forall g <- groups :: Digits(g)) && sid == "S" + Dashed(groups) {
      DashedHasShape(groups);
      var s := Dashed(groups);
      assert sid[1..] == s && sid[2..] == s[1..];
      ShapeIsSid(sid);
    }
  }

  lemma SidHasShape(sid: Sid)
    requires ValidSid(sid)
    ensures DashedShape(sid[1..])
  {
    var s := sid[1..];
    assert sid[..2][1] == '-';
    forall k | 1 <= k < |s|
      ensures IsDigit(s[k]) || (s[k] == '-' && IsDigit(s[k - 1]))
    {
      assert s[k] == sid[k + 1] && s[k - 1] == sid[k];
    }
  }

  lemma ShapeIsSid(sid: Sid)
    requires sid != "" && sid[0] == 'S' && DashedShape(sid[1..]) && '-' in sid[2..]
    ensures ValidSid(sid)
  {
    var s := sid[1..];
    assert sid[..2] == "S-";
    forall k | 2 <= k < |sid|
      ensures IsDigit(sid[k]) || (sid[k] == '-' && IsDigit(sid[k - 1]))
    {
      assert sid[k] == s[k - 1] && sid[k - 1] == s[k - 2];
    }
    var k :| 0 <= k < |sid[2..]| && sid[2..][k] == '-';
    assert sid[k + 2] == '-';
  }

  // ---- one step of the ordered check ----

  /** The rights still wanted after an entry, or nothing when it denies one of them. */
  predicate Blocks(t: Token, a: Ace, remaining: bv32) {
    Effective(a) && a.kind.Deny? && AppliesToDeny(t, a.sid) && Overlap(ExpandGeneric(a.mask), remaining)
  }

  function Left(t: Token, a: Ace, remaining: bv32): bv32 {
    if Effective(a) && a.kind.Allow? && AppliesToAllow(t, a.sid) then Remove(remaining, ExpandGeneric(a.mask)) else remaining
  }

  /** The lowest right of a mask. */
  function Lowest(rights: bv32): bv32 {
    rights & (0 - rights)
  }

  /** Every nonempty set of rights has one right in it. */
  lemma SomeRight(rights: bv32)
    requires rights != 0
    ensures OneRight(Lowest(rights)) && Overlap(Lowest(rights), rights)
  {
  }

  lemma HitOrMiss(right: bv32, rights: bv32)
    requires OneRight(right)
    ensures right & rights == 0 || right & rights == right
  {
  }

  lemma RightLeft(right: bv32, remaining: bv32, mask: bv32)
    requires OneRight(right)
    ensures Overlap(right, Remove(remaining, mask)) <==> Overlap(right, remaining) && !Overlap(mask, right)
  {
    HitOrMiss(right, remaining);
    HitOrMiss(right, mask);
    Regroup(right, remaining, mask);
    Masked(right, mask);
    Swapped(right, mask);
    assert right != 0;
    hide OneRight;
    if right & remaining == 0 {
      assert (right & remaining) & !mask == 0;
    }
  }

  lemma Regroup(a: bv32, b: bv32, c: bv32)
    ensures a & (b & !c) == (a & b) & !c
  {
  }

  lemma Masked(right: bv32, mask: bv32)
    ensures right & mask == 0 ==> right & !mask == right
    ensures right & mask == right ==> right & !mask == 0
  {
  }

  lemma Swapped(a: bv32, b: bv32)
    ensures a & b == b & a
  {
  }

  lemma SharedParts(right: bv32, mask: bv32, remaining: bv32)
    requires Overlap(right, mask & remaining)
    ensures Overlap(right, remaining) && Overlap(mask, right)
  {
  }

  lemma SharedRight(mask: bv32, remaining: bv32) returns (right: bv32)
    requires Overlap(mask, remaining)
    ensures OneRight(right) && Overlap(right, remaining) && Overlap(mask, right)
  {
    SomeRight(mask & remaining);
    right := Lowest(mask & remaining);
    SharedParts(right, mask, remaining);
  }

  lemma Disjoint(right: bv32, mask: bv32, remaining: bv32)
    requires !Overlap(mask, remaining) && OneRight(right)
    ensures !(Overlap(right, remaining) && Overlap(mask, right))
  {
  }

  lemma NothingOverlapsZero(right: bv32)
    ensures !Overlap(right, 0)
  {
  }

  lemma NothingLeft(t: Token, remaining: bv32)
    ensures AllGranted(t, [], remaining) <==> remaining == 0
  {
    hide Overlap, OneRight;
    if remaining != 0 {
      SomeRight(remaining);
      assert !Granted(t, [], Lowest(remaining));
    } else {
      forall right: bv32
        ensures !Overlap(right, 0)
      {
        NothingOverlapsZero(right);
      }
    }
  }

  /** One entry of the ordered check decides exactly the rights it concerns. */
  lemma EntryDecides(t: Token, aces: seq<Ace>, remaining: bv32)
    requires aces != [] && !aces[0].kind.UnknownKind?
    ensures AllGranted(t, aces, remaining) <==>
            !Blocks(t, aces[0], remaining) && AllGranted(t, aces[1..], Left(t, aces[0], remaining))
  {
    hide Overlap, OneRight, Remove, ExpandGeneric, Effective, AppliesToAllow, AppliesToDeny, Granted, Left;
    var a := aces[0];
    if Blocks(t, a, remaining) {
      var right := SharedRight(ExpandGeneric(a.mask), remaining);
      Refused(t, aces, right);
    } else {
      forall right: bv32 | OneRight(right)
        ensures (Overlap(right, remaining) ==> Granted(t, aces, right))
                <==> (Overlap(right, Left(t, a, remaining)) ==> Granted(t, aces[1..], right))
      {
        EntryDecidesRight(t, aces, remaining, right);
      }
    }
  }

  lemma Refused(t: Token, aces: seq<Ace>, right: bv32)
    requires aces != [] && aces[0].kind.Deny? && Concerns(t, aces[0], right)
    ensures !Granted(t, aces, right)
  {
  }

  lemma EntryDecidesRight(t: Token, aces: seq<Ace>, remaining: bv32, right: bv32)
    requires aces != [] && !aces[0].kind.UnknownKind? && OneRight(right) && !Blocks(t, aces[0], remaining)
    ensures (Overlap(right, remaining) ==> Granted(t, aces, right))
            <==> (Overlap(right, Left(t, aces[0], remaining)) ==> Granted(t, aces[1..], right))
  {
    hide Overlap, OneRight, Remove, ExpandGeneric, Effective, AppliesToAllow, AppliesToDeny;
    var mask := ExpandGeneric(aces[0].mask);
    RightLeft(right, remaining, mask);
    if !Overlap(mask, remaining) {
      Disjoint(right, mask, remaining);
    }
  }

  // ---- the diagnosis' evaluation ----

  predicate ValidFileId(id: FileId) {
    id.volume != 0 || id.index != 0
  }

  predicate ValidSnapshot(s: Snapshot, rule: Rule) {
    && s.descriptorSupported && s.token.supported && s.daclPresent && !s.daclNull && !s.reparse
    && s.object_ == rule.object_ && ValidSid(s.owner) && ValidToken(s.token)
    && ValidFileId(s.openedId) && s.openedId == s.reopenedId && s.pathValid
    && if rule.ownerMustBeUser then s.owner == s.token.user else TrustedGrant(s.owner, s.token.user, rule.trustInstaller)
  }

  /**
   The evaluation: complete evidence, every entry in order, no dangerous right given to anyone
   untrusted, and each wanted right allowed by the first entry that decides it.
   */
  method EvaluateAcl(s: Snapshot, policy: Policy) returns (ok: bool)
    ensures ok <==> policy != UnknownPolicy && Reliable(policy, s) && SecureFor(policy, s.token, s.aces)
    ensures HasRule(policy) ==>
              var rule := PolicyRule(policy);
              ok <==> ValidSnapshot(s, rule) && Secure(s.token, s.aces, rule.required, rule.forbidden, rule.trustInstaller)
  {
    if !HasRule(policy) {
      return false;
    }
    SnapshotIs(policy, s);
    SecureIs(policy, s.token, s.aces);
    hide PolicyRule, ValidSnapshot, Secure, Reliable, SecureFor;
    ok := EvaluateRule(s, PolicyRule(policy));
  }

  /** First every entry is checked on its own, then the required rights are collected in order. */
  method EvaluateRule(s: Snapshot, rule: Rule) returns (ok: bool)
    ensures ok <==> ValidSnapshot(s, rule) && Secure(s.token, s.aces, rule.required, rule.forbidden, rule.trustInstaller)
  {
    hide Overlap, Remove, KnownFlags, Effective, Supported, ValidSnapshot, Granted, AllGranted, ExpandGeneric, ValidSid, AppliesToAllow, AppliesToDeny, TrustedGrant;
    if !ValidSnapshot(s, rule) {
      return false;
    }
    var k := 0;
    while k < |s.aces|
      invariant 0 <= k <= |s.aces|
      invariant forall a <- s.aces[..k] :: WellFormed(a) && NothingForbidden(s.token, a, rule.forbidden, rule.trustInstaller)
    {
      var a := s.aces[k];
      assert a in s.aces && s.aces[..k + 1] == s.aces[..k] + [a];
      if a.kind.UnknownKind? || !KnownFlags(a.flags) || !ValidSid(a.sid) || !Supported(a.mask) {
        return false;
      }
      if Effective(a) && a.kind.Allow? && !TrustedGrant(a.sid, s.token.user, rule.trustInstaller)
         && Overlap(ExpandGeneric(a.mask), rule.forbidden) {
        return false;
      }
      k := k + 1;
    }
    assert s.aces[..k] == s.aces;
    ok := Collect(s.token, s.aces, rule.required);
  }

  /** The second pass: allows remove rights from what is wanted, a deny of a wanted right ends it. */
  method Collect(t: Token, aces: seq<Ace>, required: bv32) returns (ok: bool)
    requires forall a <- aces :: !a.kind.UnknownKind?
    ensures ok <==> AllGranted(t, aces, required)
  {
    hide Overlap, Remove, Effective, AppliesToAllow, AppliesToDeny, Granted, AllGranted, ExpandGeneric;
    var remaining := required;
    var k := 0;
    while k < |aces|
      invariant 0 <= k <= |aces|
      invariant AllGranted(t, aces, required) <==> AllGranted(t, aces[k..], remaining)
    {
      var a := aces[k];
      assert aces[k..][0] == a && aces[k..][1..] == aces[k + 1..] && a in aces;
      EntryDecides(t, aces[k..], remaining);
      if Effective(a) {
        if a.kind.Deny? {
          if AppliesToDeny(t, a.sid) && Overlap(ExpandGeneric(a.mask), remaining) {
            return false;
          }
        } else if AppliesToAllow(t, a.sid) {
          remaining := Remove(remaining, ExpandGeneric(a.mask));
        }
      }
      k := k + 1;
    }
    assert aces[k..] == [];
    NothingLeft(t, remaining);
    return remaining == 0;
  }

  // ---- the same evaluation, said of rights and entries ----

  /** An entry in order: of a known kind, with known flags, for a security identifier, with known rights. */
  ghost predicate InOrder(a: Ace) {
    a.kind != UnknownKind && a.flags < 0x20 && NumericSid(a.sid) && a.mask & 0x0fe0fe00 == 0
  }

  ghost predicate InEffect(a: Ace) {
    (a.flags / 8) % 2 == 0
  }

  ghost predicate Trusted(sid: Sid, user: Sid, installer: bool) {
    sid in {user, LOCAL_SYSTEM, ADMINISTRATORS} || (installer && sid == TRUSTED_INSTALLER)
  }

  /** The entry allows or denies the right to the token: enabled groups count for both, groups for denying only for denying. */
  ghost predicate Decides(t: Token, a: Ace, right: bv32) {
    && InEffect(a) && Grants(a.mask, right)
    && match a.kind
       case UnknownKind => false
       case Allow => a.sid == t.user || exists g <- t.groups :: g.sid == a.sid && g.enabled
       case Deny => a.sid == t.user || exists g <- t.groups :: g.sid == a.sid && (g.enabled || g.denyOnly)
  }

  /** The first entry that decides the right allows it. */
  ghost predicate FirstAllows(t: Token, aces: seq<Ace>, right: bv32) {
    exists k | 0 <= k < |aces| ::
      aces[k].kind == Allow && Decides(t, aces[k], right) && forall j | 0 <= j < k :: !Decides(t, aces[j], right)
  }

  /** Every entry is in order, nobody untrusted is given a dangerous right, and the wanted rights are allowed. */
  ghost predicate SecureFor(p: Policy, t: Token, aces: seq<Ace>) {
    && (forall a <- aces :: InOrder(a))
    && (forall a <- aces, right: bv32 |
          && OneRight(right) && Dangerous(p, right) && InEffect(a) && a.kind == Allow
          && !Trusted(a.sid, t.user, p !in {ConfigHomePolicy, CredentialPolicy}) :: !Grants(a.mask, right))
    && forall right: bv32 | OneRight(right) && Wanted(p, right) :: FirstAllows(t, aces, right)
  }

  /** No token names an identifier twice or has a group both enabled and for denying only. */
  ghost predicate SoundToken(t: Token) {
    && NumericSid(t.user) && (forall g <- t.groups :: NumericSid(g.sid) && (g.enabled ==> !g.denyOnly))
    && forall i, j | 0 <= i < |t.groups| && 0 <= j < |t.groups| && t.groups[i].sid == t.groups[j].sid :: i == j
  }

  /** Complete evidence of one plain object of the right kind that did not change, with a proper owner. */
  ghost predicate Reliable(p: Policy, s: Snapshot) {
    && s == s.(descriptorSupported := true, daclPresent := true, daclNull := false, reparse := false, reopenedId := s.openedId, pathValid := true)
    && s.openedId != FileId(0, 0) && s.token.supported && SoundToken(s.token) && NumericSid(s.owner)
    && s.object_ == (if p in {ExecutablePolicy, CredentialPolicy} then FileObject else DirectoryObject)
    && if p in {ConfigHomePolicy, CredentialPolicy} then s.owner == s.token.user else Trusted(s.owner, s.token.user, true)
  }

  lemma SnapshotIs(p: Policy, s: Snapshot)
    requires HasRule(p)
    ensures ValidSnapshot(s, PolicyRule(p)) <==> Reliable(p, s)
  {
    PolicyRights(p, READ_DATA);
    ValidSidIs(s.owner);
    TokenIs(s.token);
    hide PolicyRule, ValidSid, NumericSid, ValidToken, SoundToken, LOCAL_SYSTEM, ADMINISTRATORS, TRUSTED_INSTALLER, Wanted, Dangerous;
  }

  lemma TokenIs(t: Token)
    ensures ValidToken(t) <==> SoundToken(t)
  {
    ValidSidIs(t.user);
    forall g <- t.groups
      ensures ValidSid(g.sid) <==> NumericSid(g.sid)
    {
      ValidSidIs(g.sid);
    }
    hide ValidSid, NumericSid;
  }

  lemma EntryIs(a: Ace)
    ensures WellFormed(a) <==> InOrder(a)
    ensures Effective(a) <==> InEffect(a)
  {
    FlagsAre(a);
    SupportedIs(a.mask);
    ValidSidIs(a.sid);
    hide Supported, KnownFlags, Effective, ValidSid, NumericSid;
  }

  lemma DecidesIs(t: Token, a: Ace, right: bv32)
    requires OneRight(right)
    ensures Concerns(t, a, right) <==> Decides(t, a, right)
  {
    FlagsAre(a);
    GrantsIs(a.mask, right);
    hide Effective, Grants, ExpandGeneric, Overlap, OneRight;
  }

  /** The first entry decides, or else the first that decides among the rest. */
  lemma FirstOrLater(t: Token, aces: seq<Ace>, right: bv32)
    requires aces != []
    ensures FirstAllows(t, aces, right) <==> if Decides(t, aces[0], right) then aces[0].kind == Allow else FirstAllows(t, aces[1..], right)
  {
    hide Decides;
    if Decides(t, aces[0], right) {
      FirstDecides(t, aces, right);
    } else {
      LaterDecides(t, aces, right);
    }
  }

  lemma FirstDecides(t: Token, aces: seq<Ace>, right: bv32)
    requires aces != [] && Decides(t, aces[0], right)
    ensures FirstAllows(t, aces, right) <==> aces[0].kind == Allow
  {
    hide Decides;
    if k :| 0 <= k < |aces| && aces[k].kind == Allow && Decides(t, aces[k], right) && forall j | 0 <= j < k :: !Decides(t, aces[j], right) {
      assert k == 0;
    }
  }

  lemma LaterDecides(t: Token, aces: seq<Ace>, right: bv32)
    requires aces != [] && !Decides(t, aces[0], right)
    ensures FirstAllows(t, aces, right) <==> FirstAllows(t, aces[1..], right)
  {
    hide Decides;
    var rest := aces[1..];
    if k :| 0 <= k < |rest| && rest[k].kind == Allow && Decides(t, rest[k], right) && forall j | 0 <= j < k :: !Decides(t, rest[j], right) {
      assert forall j | 0 <= j < k + 1 :: aces[j] == if j == 0 then aces[0] else rest[j - 1];
      assert aces[k + 1] == rest[k];
    }
    if k :| 0 <= k < |aces| && aces[k].kind == Allow && Decides(t, aces[k], right) && forall j | 0 <= j < k :: !Decides(t, aces[j], right) {
      assert k > 0 && rest[k - 1] == aces[k];
      assert forall j | 0 <= j < k - 1 :: rest[j] == aces[j + 1];
    }
  }

  lemma {:induction false} GrantedIs(t: Token, aces: seq<Ace>, right: bv32)
    requires OneRight(right)
    ensures Granted(t, aces, right) <==> FirstAllows(t, aces, right)
  {
    if aces != [] {
      DecidesIs(t, aces[0], right);
      FirstOrLater(t, aces, right);
      GrantedIs(t, aces[1..], right);
      hide OneRight, Concerns, Decides;
    }
  }

  lemma ForbiddenIs(p: Policy, t: Token, a: Ace)
    requires HasRule(p)
    ensures NothingForbidden(t, a, PolicyRule(p).forbidden, PolicyRule(p).trustInstaller) <==>
            (InEffect(a) && a.kind == Allow && !Trusted(a.sid, t.user, p !in {ConfigHomePolicy, CredentialPolicy}) ==>
               forall right: bv32 | OneRight(right) && Dangerous(p, right) :: !Grants(a.mask, right))
  {
    FlagsAre(a);
    PolicyRights(p, READ_DATA);
    var mask, forbidden := ExpandGeneric(a.mask), PolicyRule(p).forbidden;
    forall right: bv32 | OneRight(right)
      ensures (Overlap(right, forbidden) <==> Dangerous(p, right)) && (Overlap(mask, right) <==> Grants(a.mask, right))
    {
      PolicyRights(p, right);
      GrantsIs(a.mask, right);
    }
    if Overlap(mask, forbidden) {
      var right := SharedRight(mask, forbidden);
      assert Dangerous(p, right) && Grants(a.mask, right);
    }
    forall right: bv32 | !Overlap(mask, forbidden) && OneRight(right)
      ensures !(Dangerous(p, right) && Grants(a.mask, right))
    {
      Disjoint(right, mask, forbidden);
    }
    hide Effective, Grants, ExpandGeneric, Overlap, OneRight, Dangerous, PolicyRule, LOCAL_SYSTEM, ADMINISTRATORS, TRUSTED_INSTALLER, Wanted;
  }

  lemma WantedIs(p: Policy, t: Token, aces: seq<Ace>)
    requires HasRule(p)
    ensures AllGranted(t, aces, PolicyRule(p).required) <==> forall right: bv32 | OneRight(right) && Wanted(p, right) :: FirstAllows(t, aces, right)
  {
    forall right: bv32 | OneRight(right)
      ensures (Overlap(right, PolicyRule(p).required) <==> Wanted(p, right)) && (Granted(t, aces, right) <==> FirstAllows(t, aces, right))
    {
      PolicyRights(p, right);
      GrantedIs(t, aces, right);
    }
    hide Overlap, OneRight, Wanted, PolicyRule, Granted, FirstAllows;
  }

  /** Both ways of saying when an access list is secure for a policy agree. */
  lemma SecureIs(p: Policy, t: Token, aces: seq<Ace>)
    requires HasRule(p)
    ensures Secure(t, aces, PolicyRule(p).required, PolicyRule(p).forbidden, PolicyRule(p).trustInstaller) <==> SecureFor(p, t, aces)
  {
    WantedIs(p, t, aces);
    forall a <- aces
      ensures WellFormed(a) <==> InOrder(a)
      ensures NothingForbidden(t, a, PolicyRule(p).forbidden, PolicyRule(p).trustInstaller) <==>
              (InEffect(a) && a.kind == Allow && !Trusted(a.sid, t.user, p !in {ConfigHomePolicy, CredentialPolicy}) ==>
                 forall right: bv32 | OneRight(right) && Dangerous(p, right) :: !Grants(a.mask, right))
    {
      EntryIs(a);
      ForbiddenIs(p, t, a);
    }
    hide AllGranted, FirstAllows, WellFormed, InOrder, NothingForbidden, InEffect, Trusted, Dangerous, Wanted, Grants, OneRight, PolicyRule;
  }

  // ---- the gateway key's evaluation ----

  function ExpandKeyGeneric(mask: bv32): bv32 {
    var read, write, execute := Part(mask, GENERIC_READ, 0x00120089), Part(mask, GENERIC_WRITE, 0x00120116), Part(mask, GENERIC_EXECUTE, 0x001200a0);
    Both(Both(Both(Both(Concrete(mask), read), write), execute), Part(mask, GENERIC_ALL, CONCRETE_RIGHTS))
  }

  lemma GenericConstants()
    ensures READ_CONTROL | READ_DATA | READ_EA | READ_ATTRIBUTES | SYNCHRONIZE == 0x00120089
    ensures READ_CONTROL | WRITE_DATA | APPEND_DATA | WRITE_EA | WRITE_ATTRIBUTES | SYNCHRONIZE == 0x00120116
    ensures READ_CONTROL | EXECUTE | READ_ATTRIBUTES | SYNCHRONIZE == 0x001200a0
  {
  }

  /** The two expansions of generic rights are the same. */
  lemma ExpansionsAgree(mask: bv32)
    ensures ExpandKeyGeneric(mask) == ExpandGeneric(mask)
  {
    GenericConstants();
    hide Part, Concrete, Both;
  }

  predicate KeySidApplies(t: Token, sid: Sid, deny: bool) {
    sid == t.user || exists g <- t.groups :: g.sid == sid && (g.enabled || (deny && g.denyOnly))
  }

  predicate ValidKeyEvidence(e: KeyEvidence, t: Token, ancestor: bool) {
    && e.descriptorSupported && e.daclPresent && !e.daclNull && e.owner != "" && t.user != ""
    && (!ancestor ==> e.daclProtected && e.owner == t.user)
    && (ancestor ==> TrustedGrant(e.owner, t.user, true))
  }

  predicate KeyWellFormed(a: Ace) {
    !a.kind.UnknownKind? && KnownFlags(a.flags) && a.sid != "" && Supported(a.mask)
  }

  function KeyRequired(ancestor: bool): bv32 {
    if ancestor then EXECUTE else READ_DATA | READ_ATTRIBUTES
  }

  function KeyForbidden(ancestor: bool): bv32 {
    if ancestor then 0x000d0040 else 0x000d01ff
  }

  ghost predicate KeySecure(t: Token, aces: seq<Ace>, ancestor: bool) {
    && (forall a <- aces :: KeyWellFormed(a) && NothingForbidden(t, a, KeyForbidden(ancestor), ancestor))
    && AllGranted(t, aces, KeyRequired(ancestor))
  }

  /** What the pass asks of an entry, in the terms of the ordered check. */
  lemma KeyEntryChecks(t: Token, a: Ace, remaining: bv32, forbidden: bv32, ancestor: bool)
    ensures KeyWellFormed(a) <==>
            !a.kind.UnknownKind? && KnownFlags(a.flags) && a.sid != "" && !Overlap(ExpandKeyGeneric(a.mask), UNKNOWN_RIGHTS)
    ensures NothingForbidden(t, a, forbidden, ancestor) <==>
            !(Effective(a) && a.kind.Allow? && !TrustedGrant(a.sid, t.user, ancestor) && Overlap(ExpandKeyGeneric(a.mask), forbidden))
    ensures Blocks(t, a, remaining) <==>
            Effective(a) && a.kind.Deny? && KeySidApplies(t, a.sid, true) && Overlap(ExpandKeyGeneric(a.mask), remaining)
    ensures Left(t, a, remaining) ==
            if Effective(a) && a.kind.Allow? && KeySidApplies(t, a.sid, false) then Remove(remaining, ExpandKeyGeneric(a.mask)) else remaining
  {
    ExpansionsAgree(a.mask);
    hide Overlap, Remove, KnownFlags, Effective, ExpandGeneric, ExpandKeyGeneric, TrustedGrant;
  }

  /** One pass that checks each entry and collects the required rights at once. */
  method EvaluateKeyAcl(e: KeyEvidence, t: Token, ancestor: bool) returns (ok: bool)
    ensures ok <==> ValidKeyEvidence(e, t, ancestor) && KeySecure(t, e.aces, ancestor)
  {
    hide Overlap, Remove, KnownFlags, Effective, Granted, AllGranted, ExpandGeneric, ExpandKeyGeneric, TrustedGrant, KeyRequired, KeyForbidden;
    hide ValidKeyEvidence, KeySidApplies, KeyWellFormed, NothingForbidden, Blocks, Left;
    if !ValidKeyEvidence(e, t, ancestor) {
      return false;
    }
    var remaining := KeyRequired(ancestor);
    var forbidden := KeyForbidden(ancestor);
    var k := 0;
    while k < |e.aces|
      invariant 0 <= k <= |e.aces|
      invariant forall a <- e.aces[..k] :: KeyWellFormed(a) && NothingForbidden(t, a, forbidden, ancestor)
      invariant AllGranted(t, e.aces, KeyRequired(ancestor)) <==> AllGranted(t, e.aces[k..], remaining)
    {
      var a := e.aces[k];
      assert a in e.aces && e.aces[..k + 1] == e.aces[..k] + [a];
      assert e.aces[k..][0] == a && e.aces[k..][1..] == e.aces[k + 1..];
      var mask := ExpandKeyGeneric(a.mask);
      KeyEntryChecks(t, a, remaining, forbidden, ancestor);
      if a.kind.UnknownKind? || !KnownFlags(a.flags) || a.sid == "" || Overlap(mask, UNKNOWN_RIGHTS) {
        return false;
      }
      EntryDecides(t, e.aces[k..], remaining);
      if Effective(a) {
        if a.kind.Allow? && !TrustedGrant(a.sid, t.user, ancestor) && Overlap(mask, forbidden) {
          return false;
        }
        if a.kind.Deny? && KeySidApplies(t, a.sid, true) && Overlap(mask, remaining) {
          return false;
        }
        if a.kind.Allow? && KeySidApplies(t, a.sid, false) {
          remaining := Remove(remaining, mask);
        }
      }
      k := k + 1;
    }
    assert e.aces[..k] == e.aces && e.aces[k..] == [];
    NothingLeft(t, remaining);
    return remaining == 0;
  }

  // ---- agreement ----

  /** The same descriptor, read by the diagnosis and by the key loader. */
  predicate SameDescriptor(s: Snapshot, e: KeyEvidence) {
    && s.descriptorSupported == e.descriptorSupported && s.daclPresent == e.daclPresent && s.daclNull == e.daclNull
    && s.owner == e.owner && s.aces == e.aces
  }

  /** Evidence the system itself produced: valid identifiers, a valid token, a stable plain object. */
  predicate WellFormedEvidence(s: Snapshot, object_: Object) {
    && s.token.supported && ValidToken(s.token) && ValidSid(s.owner) && (forall a <- s.aces :: ValidSid(a.sid))
    && !s.reparse && s.object_ == object_ && ValidFileId(s.openedId) && s.openedId == s.reopenedId && s.pathValid
  }

  /**
   On well-formed evidence the key check of a leaf with a protected list is the diagnosis'
   credential check, and that of an ancestor is its private-ancestor check.
   */
  lemma KeyCheckIsPathCheck(s: Snapshot, e: KeyEvidence, ancestor: bool)
    requires SameDescriptor(s, e) && (!ancestor ==> e.daclProtected)
    requires WellFormedEvidence(s, if ancestor then DirectoryObject else FileObject)
    ensures var rule := PolicyRule(if ancestor then PrivateAncestorPolicy else CredentialPolicy);
            (ValidKeyEvidence(e, s.token, ancestor) && KeySecure(s.token, e.aces, ancestor))
            <==> (ValidSnapshot(s, rule) && Secure(s.token, s.aces, rule.required, rule.forbidden, rule.trustInstaller))
  {
    hide Overlap, KnownFlags, Effective, Granted, AllGranted, ExpandGeneric, TrustedGrant, Supported;
    var rule := PolicyRule(if ancestor then PrivateAncestorPolicy else CredentialPolicy);
    assert KeyRequired(ancestor) == rule.required && KeyForbidden(ancestor) == rule.forbidden && ancestor == rule.trustInstaller;
    assert s.token.user != "" && s.owner != "";
    forall a <- s.aces
      ensures KeyWellFormed(a) <==> WellFormed(a)
    {
    }
  }
}
