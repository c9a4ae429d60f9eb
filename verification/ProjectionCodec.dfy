/** A user's ranking projection, and the Redis hash it is written to and read back from. */
module ProjectionCodec {
  import opened Wrappers
  import opened Text

  datatype Platform = Luogu | Leetcode | Lanqiao

  datatype Profile = Profile(identifier: string, avatar: string, score: int64)

  datatype Projection = Projection(
    userId: uint64, username: string, avatar: string, orgId: Option<uint64>, orgName: string, active: bool,
    luogu: Profile, leetcode: Profile, lanqiao: Profile)

  function ProfileOn(p: Projection, platform: Platform): Profile {
    match platform
    case Luogu => p.luogu
    case Leetcode => p.leetcode
    case Lanqiao => p.lanqiao
  }

  // ----- platform names -----

  function PlatformName(platform: Platform): string {
    match platform
    case Luogu => "luogu"
    case Leetcode => "leetcode"
    case Lanqiao => "lanqiao"
  }

  /** unicode.ToLower, exact for every character whose lower case is ASCII. */
  function Lower(c: char): char {
    if 'A' <= c <= 'Z' then (c as int + 32) as char
    else if c == '\U{0130}' then 'i'
    else if c == '\U{212A}' then 'k'
    else c
  }

  function ToLower(s: string): (r: string)
    ensures |r| == |s| && forall i | 0 <= i < |s| :: r[i] == Lower(s[i])
  {
    seq(|s|, i requires 0 <= i < |s| => Lower(s[i]))
  }

  function NormalizePlatform(platform: string): Platform {
    var name := ToLower(TrimSpace(platform));
    if name == "leetcode" then Leetcode
    else if name == "lanqiao" then Lanqiao
    else Luogu
  }

  /** A character whose lower case is the letter `l`: the letter itself, its capital, the dotted capital I, or the Kelvin sign. */
  predicate IsCaseOf(c: char, l: char) {
    || c == l
    || ('A' <= c <= 'Z' && c as int - 'A' as int == l as int - 'a' as int)
    || (c == '\U{0130}' && l == 'i') || (c == '\U{212A}' && l == 'k')
  }

  ghost predicate IsCasing(s: string, name: string) {
    |s| == |name| && forall i | 0 <= i < |s| :: IsCaseOf(s[i], name[i])
  }

  lemma LowerIff(c: char, l: char)
    requires 'a' <= l <= 'z'
    ensures Lower(c) == l <==> IsCaseOf(c, l)
  {
  }

  lemma ToLowerIff(s: string, name: string)
    requires AllLower(name)
    ensures ToLower(s) == name <==> IsCasing(s, name)
  {
    if |s| == |name| {
      forall i | 0 <= i < |s|
        ensures ToLower(s)[i] == name[i] <==> IsCaseOf(s[i], name[i])
      {
        LowerIff(s[i], name[i]);
      }
    }
  }

  /** Any text is read as a platform if trimmed it is that platform's name in some casing, and as Luogu otherwise. */
  lemma NormalizeIff(text: string, platform: Platform)
    ensures IsCasing(TrimSpace(text), PlatformName(platform)) ==> NormalizePlatform(text) == platform
    ensures NormalizePlatform(text) == platform ==> platform == Luogu || IsCasing(TrimSpace(text), PlatformName(platform))
  {
    PlatformNamesAreLower(platform);
    ToLowerIff(TrimSpace(text), PlatformName(platform));
    assert |"luogu"| == 5 && |"leetcode"| == 8 && |"lanqiao"| == 7;
  }

  predicate AllLower(s: string) {
    forall i | 0 <= i < |s| :: 'a' <= s[i] <= 'z'
  }

  lemma PlatformNamesAreLower(platform: Platform)
    ensures AllLower(PlatformName(platform)) && PlatformName(platform) != ""
  {
  }

  /** A platform's own name is read as that platform, and the three names differ. */
  lemma NormalizeInvertsName(platform: Platform)
    ensures NormalizePlatform(PlatformName(platform)) == platform
  {
    var name := PlatformName(platform);
    PlatformNamesAreLower(platform);
    assert Trimmed(name);
    assert ToLower(name) == name;
    assert |"luogu"| == 5 && |"leetcode"| == 8 && |"lanqiao"| == 7;
  }

  // ----- the hash -----

  /** The fields of the hash; older or foreign content may hold any others. */
  datatype Field =
    | Username | Avatar | OrgId | OrgName | Active
    | Identifier(platform: Platform) | PlatformAvatar(platform: Platform) | Score(platform: Platform)
    | Other(name: string)

  function FieldName(f: Field): string
    requires !f.Other?
  {
    match f
    case Username => "username"
    case Avatar => "avatar"
    case OrgId => "current_org_id"
    case OrgName => "current_org_name"
    case Active => "active"
    case Identifier(Luogu) => "luogu_identifier"
    case PlatformAvatar(Luogu) => "luogu_avatar"
    case Score(Luogu) => "luogu_score"
    case Identifier(Leetcode) => "leetcode_identifier"
    case PlatformAvatar(Leetcode) => "leetcode_avatar"
    case Score(Leetcode) => "leetcode_score"
    case Identifier(Lanqiao) => "lanqiao_identifier"
    case PlatformAvatar(Lanqiao) => "lanqiao_avatar"
    case Score(Lanqiao) => "lanqiao_score"
  }

  /** Its length and first two characters tell a field name from all the others. */
  function Mark(f: Field): (int, char, char)
    requires !f.Other?
  {
    match f
    case Username => (8, 'u', 's')
    case Avatar => (6, 'a', 'v')
    case OrgId => (14, 'c', 'u')
    case OrgName => (16, 'c', 'u')
    case Active => (6, 'a', 'c')
    case Identifier(Luogu) => (16, 'l', 'u')
    case PlatformAvatar(Luogu) => (12, 'l', 'u')
    case Score(Luogu) => (11, 'l', 'u')
    case Identifier(Leetcode) => (19, 'l', 'e')
    case PlatformAvatar(Leetcode) => (15, 'l', 'e')
    case Score(Leetcode) => (14, 'l', 'e')
    case Identifier(Lanqiao) => (18, 'l', 'a')
    case PlatformAvatar(Lanqiao) => (14, 'l', 'a')
    case Score(Lanqiao) => (13, 'l', 'a')
  }

  lemma MarkOfName(f: Field)
    requires !f.Other?
    ensures var name := FieldName(f); |name| >= 2 && Mark(f) == (|name|, name[0], name[1])
  {
  }

  /** The fourteen field names are pairwise distinct, so fields may stand for names. */
  lemma FieldNamesAreDistinct(f: Field, g: Field)
    requires !f.Other? && !g.Other? && FieldName(f) == FieldName(g)
    ensures f == g
  {
    MarkOfName(f);
    MarkOfName(g);
  }

  type Hash = map<Field, string>

  const KNOWN: set<Field> := {
    Username, Avatar, OrgId, OrgName, Active,
    Identifier(Luogu), PlatformAvatar(Luogu), Score(Luogu),
    Identifier(Leetcode), PlatformAvatar(Leetcode), Score(Leetcode),
    Identifier(Lanqiao), PlatformAvatar(Lanqiao), Score(Lanqiao)
  }

  function ValueOf(p: Projection, f: Field): string {
    match f
    case Username => p.username
    case Avatar => p.avatar
    case OrgId => if p.orgId.Some? && p.orgId.value > 0 then Print(p.orgId.value) else ""
    case OrgName => p.orgName
    case Active => if p.active then "1" else "0"
    case Identifier(platform) => ProfileOn(p, platform).identifier
    case PlatformAvatar(platform) => ProfileOn(p, platform).avatar
    case Score(platform) => PrintInt(ProfileOn(p, platform).score)
    case Other(_) => ""
  }

  function HashOf(p: Projection): Hash {
    map f | f in KNOWN :: ValueOf(p, f)
  }

  /** The hash has every known field, with the projection's value. */
  ghost predicate Holds(values: Hash, p: Projection) {
    forall f: Field | !f.Other? :: f in values && values[f] == ValueOf(p, f)
  }

  lemma HashOfHolds(earlier: Hash, p: Projection)
    ensures Holds(earlier + HashOf(p), p)
    ensures forall f | f in earlier && f.Other? :: f in earlier + HashOf(p) && (earlier + HashOf(p))[f] == earlier[f]
  {
    forall f: Field | !f.Other?
      ensures f in KNOWN
    {
      match f
      case Identifier(platform) => match platform { case Luogu => case Leetcode => case Lanqiao => }
      case PlatformAvatar(platform) => match platform { case Luogu => case Leetcode => case Lanqiao => }
      case Score(platform) => match platform { case Luogu => case Leetcode => case Lanqiao => }
      case _ =>
    }
  }

  ghost predicate HasProfile(values: Hash, platform: Platform, profile: Profile) {
    && values.Keys == {Identifier(platform), PlatformAvatar(platform), Score(platform)}
    && values[Identifier(platform)] == profile.identifier
    && values[PlatformAvatar(platform)] == profile.avatar
    && values[Score(platform)] == PrintInt(profile.score)
  }

  ghost predicate Parts(base: Hash, luogu: Hash, leetcode: Hash, lanqiao: Hash, p: Projection) {
    && base.Keys == {Username, Avatar, OrgId, OrgName, Active}
    && (forall f | f in base :: base[f] == ValueOf(p, f))
    && HasProfile(luogu, Luogu, p.luogu) && HasProfile(leetcode, Leetcode, p.leetcode) && HasProfile(lanqiao, Lanqiao, p.lanqiao)
  }

  lemma ProfileAdded(values: Hash, part: Hash, p: Projection, platform: Platform)
    requires HasProfile(part, platform, ProfileOn(p, platform))
    ensures ProfileIsOn(values + part, p, platform)
  {
  }

  lemma ProfileStays(values: Hash, part: Hash, p: Projection, platform: Platform, other: Platform)
    requires ProfileIsOn(values, p, platform) && HasProfile(part, other, ProfileOn(p, other)) && other != platform
    ensures ProfileIsOn(values + part, p, platform)
  {
  }

  lemma AssembledProfiles(base: Hash, luogu: Hash, leetcode: Hash, lanqiao: Hash, p: Projection, platform: Platform)
    requires Parts(base, luogu, leetcode, lanqiao, p)
    ensures ProfileIsOn(base + luogu + leetcode + lanqiao, p, platform)
  {
    match platform
    case Luogu =>
      ProfileAdded(base, luogu, p, Luogu);
      ProfileStays(base + luogu, leetcode, p, Luogu, Leetcode);
      ProfileStays(base + luogu + leetcode, lanqiao, p, Luogu, Lanqiao);
    case Leetcode =>
      ProfileAdded(base + luogu, leetcode, p, Leetcode);
      ProfileStays(base + luogu + leetcode, lanqiao, p, Leetcode, Lanqiao);
    case Lanqiao =>
      ProfileAdded(base + luogu + leetcode, lanqiao, p, Lanqiao);
  }

  lemma AssembledBase(base: Hash, luogu: Hash, leetcode: Hash, lanqiao: Hash, p: Projection, f: Field)
    requires Parts(base, luogu, leetcode, lanqiao, p) && f in base
    ensures IsOn(base + luogu + leetcode + lanqiao, p, f)
  {
    assert f !in luogu && f !in leetcode && f !in lanqiao;
  }

  ghost predicate ProfileIsOn(values: Hash, p: Projection, platform: Platform) {
    IsOn(values, p, Identifier(platform)) && IsOn(values, p, PlatformAvatar(platform)) && IsOn(values, p, Score(platform))
  }

  ghost predicate IsOn(values: Hash, p: Projection, f: Field) {
    f in values && values[f] == ValueOf(p, f)
  }

  lemma AssembledHolds(base: Hash, luogu: Hash, leetcode: Hash, lanqiao: Hash, p: Projection)
    requires Parts(base, luogu, leetcode, lanqiao, p)
    ensures Holds(base + luogu + leetcode + lanqiao, p)
  {
    forall f: Field | !f.Other?
      ensures IsOn(base + luogu + leetcode + lanqiao, p, f)
    {
      match f
      case Identifier(platform) => AssembledProfiles(base, luogu, leetcode, lanqiao, p, platform);
      case PlatformAvatar(platform) => AssembledProfiles(base, luogu, leetcode, lanqiao, p, platform);
      case Score(platform) => AssembledProfiles(base, luogu, leetcode, lanqiao, p, platform);
      case _ => AssembledBase(base, luogu, leetcode, lanqiao, p, f);
    }
  }

  lemma HoldingIsHashOf(values: Hash, p: Projection)
    requires Holds(values, p) && forall f | f in values :: !f.Other?
    ensures values == HashOf(p)
  {
    HashOfHolds(map[], p);
    assert map[] + HashOf(p) == HashOf(p);
    forall f: Field
      ensures f in values <==> f in HashOf(p)
    {
    }
  }

  lemma PartsAreKnown(base: Hash, luogu: Hash, leetcode: Hash, lanqiao: Hash, p: Projection)
    requires Parts(base, luogu, leetcode, lanqiao, p)
    ensures forall f | f in base :: !f.Other?
    ensures forall f | f in luogu :: !f.Other?
    ensures forall f | f in leetcode :: !f.Other?
    ensures forall f | f in lanqiao :: !f.Other?
  {
  }

  lemma SumIsHashOf(base: Hash, luogu: Hash, leetcode: Hash, lanqiao: Hash, p: Projection)
    requires Holds(base + luogu + leetcode + lanqiao, p)
    requires forall f | f in base :: !f.Other?
    requires forall f | f in luogu :: !f.Other?
    requires forall f | f in leetcode :: !f.Other?
    requires forall f | f in lanqiao :: !f.Other?
    ensures base + luogu + leetcode + lanqiao == HashOf(p)
  {
    HoldingIsHashOf(base + luogu + leetcode + lanqiao, p);
  }

  method PlatformValues(platform: Platform, profile: Profile) returns (values: Hash)
    ensures HasProfile(values, platform, profile)
  {
    values := map[Identifier(platform) := profile.identifier, PlatformAvatar(platform) := profile.avatar,
                  Score(platform) := PrintInt(profile.score)];
  }

  /** HashValues, as the arguments of HSET. */
  method HashValues(p: Projection) returns (values: Hash)
    ensures values == HashOf(p)
  {
    var luogu := PlatformValues(Luogu, p.luogu);
    var leetcode := PlatformValues(Leetcode, p.leetcode);
    var lanqiao := PlatformValues(Lanqiao, p.lanqiao);
    values := map[Username := p.username, Avatar := p.avatar, OrgName := p.orgName];
    if p.active {
      values := values[Active := "1"];
    } else {
      values := values[Active := "0"];
    }
    if p.orgId.Some? && p.orgId.value > 0 {
      values := values[OrgId := Print(p.orgId.value)];
    } else {
      values := values[OrgId := ""];
    }
    assert Parts(values, luogu, leetcode, lanqiao, p);
    AssembledHolds(values, luogu, leetcode, lanqiao, p);
    PartsAreKnown(values, luogu, leetcode, lanqiao, p);
    SumIsHashOf(values, luogu, leetcode, lanqiao, p);
    values := values + luogu + leetcode + lanqiao;
  }

  function Read(values: Hash, f: Field): string {
    if f in values then values[f] else ""
  }

  function ParseInt(raw: string): int64 {
    var text := TrimSpace(raw);
    if text == "" then 0
    else if Atoi(text).Some? then Atoi(text).value
    else 0
  }

  function ParseOrgId(raw: string): Option<uint64> {
    var text := TrimSpace(raw);
    if text != "" && ParseUint(text).Some? && ParseUint(text).value > 0 then ParseUint(text) else None
  }

  function ReadProfile(values: Hash, platform: Platform): Profile {
    Profile(TrimSpace(Read(values, Identifier(platform))), TrimSpace(Read(values, PlatformAvatar(platform))),
            ParseInt(Read(values, Score(platform))))
  }

  function Decode(userId: uint64, values: Hash): Option<Projection> {
    if userId == 0 || OrgId !in values || OrgName !in values then None
    else Some(Projection(
      userId, TrimSpace(Read(values, Username)), TrimSpace(Read(values, Avatar)),
      ParseOrgId(Read(values, OrgId)), TrimSpace(Read(values, OrgName)),
      TrimSpace(Read(values, Active)) == "1",
      ReadProfile(values, Luogu), ReadProfile(values, Leetcode), ReadProfile(values, Lanqiao)))
  }

  // What is read of any hash, field by field.

  /** Text is read trimmed, and as empty when its field is missing. */
  ghost predicate ReadsText(values: Hash, f: Field, text: string) {
    text == if f in values then TrimSpace(values[f]) else ""
  }

  /** A number is read when its field holds one, white space aside, and as zero otherwise. */
  ghost predicate ReadsNumber(values: Hash, f: Field, n: int) {
    if f in values && Atoi(TrimSpace(values[f])).Some? then Atoi(TrimSpace(values[f])) == Some(n) else n == 0
  }

  ghost predicate ReadsProfile(values: Hash, platform: Platform, profile: Profile) {
    && ReadsText(values, Identifier(platform), profile.identifier)
    && ReadsText(values, PlatformAvatar(platform), profile.avatar)
    && ReadsNumber(values, Score(platform), profile.score)
  }

  /** An organisation is read when its field holds a positive number. */
  ghost predicate ReadsOrg(raw: string, orgId: Option<uint64>) {
    forall n: uint64 :: orgId == Some(n) <==> n > 0 && ParseUint(TrimSpace(raw)) == Some(n)
  }

  ghost predicate ReadsAs(userId: uint64, values: Hash, p: Projection)
    requires OrgId in values
  {
    && p.userId == userId && ReadsText(values, Username, p.username) && ReadsText(values, Avatar, p.avatar)
    && ReadsOrg(values[OrgId], p.orgId) && ReadsText(values, OrgName, p.orgName)
    && (p.active <==> Active in values && TrimSpace(values[Active]) == "1")
    && ReadsProfile(values, Luogu, p.luogu) && ReadsProfile(values, Leetcode, p.leetcode) && ReadsProfile(values, Lanqiao, p.lanqiao)
  }

  /** Refused is user zero, and a hash without the organisation fields; every other reads as this one projection. */
  lemma DecodeIff(userId: uint64, values: Hash)
    ensures Decode(userId, values).None? <==> userId == 0 || OrgId !in values || OrgName !in values
    ensures Decode(userId, values).Some? ==> ReadsAs(userId, values, Decode(userId, values).value)
  {
    if Decode(userId, values).Some? {
      ReadProfileReads(values, Luogu);
      ReadProfileReads(values, Leetcode);
      ReadProfileReads(values, Lanqiao);
      ParseOrgIdReads(values[OrgId]);
    }
  }

  lemma ReadProfileReads(values: Hash, platform: Platform)
    ensures ReadsProfile(values, platform, ReadProfile(values, platform))
  {
    assert Trimmed("") && TrimSpace("") == "";
  }

  lemma ParseOrgIdReads(raw: string)
    ensures ReadsOrg(raw, ParseOrgId(raw))
  {
  }

  /** ProjectionFromHash. A hash from before the organisation fields existed is refused. */
  method ProjectionFromHash(userId: uint64, values: Hash) returns (out: Option<Projection>)
    ensures out == Decode(userId, values)
    ensures out.None? <==> userId == 0 || OrgId !in values || OrgName !in values
    ensures out.Some? ==> ReadsAs(userId, values, out.value)
  {
    DecodeIff(userId, values);
    if userId == 0 || |values| == 0 {
      return None;
    }
    if OrgId !in values || OrgName !in values {
      return None;
    }
    var p := Projection(
      userId, TrimSpace(Read(values, Username)), TrimSpace(Read(values, Avatar)), None,
      TrimSpace(Read(values, OrgName)), TrimSpace(Read(values, Active)) == "1",
      ReadProfile(values, Luogu), ReadProfile(values, Leetcode), ReadProfile(values, Lanqiao));
    var raw := TrimSpace(Read(values, OrgId));
    if raw != "" {
      var parsed := ParseUint(raw);
      if parsed.Some? && parsed.value > 0 {
        p := p.(orgId := parsed);
      }
    }
    return Some(p);
  }

  // ----- the codec undoes itself -----

  function NormalProfile(profile: Profile): Profile {
    Profile(TrimSpace(profile.identifier), TrimSpace(profile.avatar), profile.score)
  }

  /** Strings trimmed, and organisation zero read as none. */
  function Normal(p: Projection): Projection {
    Projection(p.userId, TrimSpace(p.username), TrimSpace(p.avatar),
               if p.orgId == Some(0) then None else p.orgId, TrimSpace(p.orgName), p.active,
               NormalProfile(p.luogu), NormalProfile(p.leetcode), NormalProfile(p.lanqiao))
  }

  predicate IsNormalProfile(profile: Profile) {
    Trimmed(profile.identifier) && Trimmed(profile.avatar)
  }

  predicate IsNormal(p: Projection) {
    && Trimmed(p.username) && Trimmed(p.avatar) && Trimmed(p.orgName) && p.orgId != Some(0)
    && IsNormalProfile(p.luogu) && IsNormalProfile(p.leetcode) && IsNormalProfile(p.lanqiao)
  }

  lemma OrgIdRoundTrip(orgId: Option<uint64>)
    ensures ParseOrgId(if orgId.Some? && orgId.value > 0 then Print(orgId.value) else "") ==
            if orgId == Some(0) then None else orgId
  {
    if orgId.Some? {
      ParseUintInvertsPrint(orgId.value);
    }
  }

  lemma ParseIntInvertsPrintInt(x: int64)
    ensures ParseInt(PrintInt(x)) == x
  {
    AtoiInvertsPrintInt(x);
  }

  lemma HeldValue(values: Hash, p: Projection, f: Field)
    requires Holds(values, p) && !f.Other?
    ensures f in values && Read(values, f) == ValueOf(p, f)
  {
  }

  lemma ReadProfileOf(values: Hash, platform: Platform, profile: Profile)
    requires Read(values, Identifier(platform)) == profile.identifier
    requires Read(values, PlatformAvatar(platform)) == profile.avatar
    requires Read(values, Score(platform)) == PrintInt(profile.score)
    ensures ReadProfile(values, platform) == NormalProfile(profile)
  {
    ParseIntInvertsPrintInt(profile.score);
  }

  lemma ProfileRoundTrip(values: Hash, p: Projection, platform: Platform)
    requires Holds(values, p)
    ensures ReadProfile(values, platform) == NormalProfile(ProfileOn(p, platform))
  {
    HeldValue(values, p, Identifier(platform));
    HeldValue(values, p, PlatformAvatar(platform));
    HeldValue(values, p, Score(platform));
    ReadProfileOf(values, platform, ProfileOn(p, platform));
  }

  lemma ActiveRoundTrip(values: Hash, p: Projection)
    requires Holds(values, p)
    ensures (TrimSpace(Read(values, Active)) == "1") == p.active
  {
    HeldValue(values, p, Active);
    assert Trimmed("1") && Trimmed("0") && "1"[0] != "0"[0];
  }

  lemma TextFieldsHeld(values: Hash, p: Projection)
    requires Holds(values, p)
    ensures OrgId in values && OrgName in values
    ensures Read(values, Username) == p.username && Read(values, Avatar) == p.avatar && Read(values, OrgName) == p.orgName
    ensures ParseOrgId(Read(values, OrgId)) == if p.orgId == Some(0) then None else p.orgId
  {
    HeldValue(values, p, Username);
    HeldValue(values, p, Avatar);
    HeldValue(values, p, OrgName);
    HeldValue(values, p, OrgId);
    OrgIdRoundTrip(p.orgId);
  }

  lemma DecodeOfHeld(values: Hash, p: Projection)
    requires Holds(values, p) && p.userId != 0
    ensures Decode(p.userId, values) == Some(Normal(p))
  {
    TextFieldsHeld(values, p);
    ActiveRoundTrip(values, p);
    ProfilesRoundTrip(values, p);
  }

  lemma ProfilesRoundTrip(values: Hash, p: Projection)
    requires Holds(values, p)
    ensures ReadProfile(values, Luogu) == NormalProfile(p.luogu)
    ensures ReadProfile(values, Leetcode) == NormalProfile(p.leetcode)
    ensures ReadProfile(values, Lanqiao) == NormalProfile(p.lanqiao)
  {
    ProfileRoundTrip(values, p, Luogu);
    ProfileRoundTrip(values, p, Leetcode);
    ProfileRoundTrip(values, p, Lanqiao);
  }

  /** Whatever the hash held before, what was written is what is read, in normal form. */
  lemma ReadAfterWrite(earlier: Hash, p: Projection)
    requires p.userId != 0
    ensures Decode(p.userId, earlier + HashOf(p)) == Some(Normal(p))
  {
    HashOfHolds(earlier, p);
    DecodeOfHeld(earlier + HashOf(p), p);
  }

  /** The hash keeps a projection as it is exactly when the projection is in normal form. */
  lemma UnchangedIff(earlier: Hash, p: Projection)
    requires p.userId != 0
    ensures Decode(p.userId, earlier + HashOf(p)) == Some(p) <==> IsNormal(p)
  {
    ReadAfterWrite(earlier, p);
  }

  /** Writing back what was read changes nothing more. */
  lemma RewriteIsStable(earlier: Hash, older: Hash, p: Projection)
    requires p.userId != 0
    ensures Decode(p.userId, older + HashOf(Normal(p))) == Decode(p.userId, earlier + HashOf(p))
  {
    ReadAfterWrite(earlier, p);
    ReadAfterWrite(older, Normal(p));
    assert Normal(Normal(p)) == Normal(p);
  }
}
