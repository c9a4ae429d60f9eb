/**
 The ranking boards: one sorted set per platform over all members and one per organisation
 and platform. They denormalise the users' projections and must agree with them.
 */
module RankingBoards {
  import opened Wrappers
  import opened Text
  import opened ProjectionCodec

  // ----- keys -----

  datatype Board = AllMembers(platform: string) | OfOrg(org: uint64, platform: string)

  function AllMembersKey(platform: string): string {
    "ranking:all_members:" + platform
  }

  function OrgKey(org: uint64, platform: string): string {
    "ranking:org:" + (Print(org) + [':'] + platform)
  }

  function UserHashKey(user: uint64): string {
    "ranking:user:" + Print(user)
  }

  function BoardKey(b: Board): string {
    match b
    case AllMembers(platform) => AllMembersKey(platform)
    case OfOrg(org, platform) => OrgKey(org, platform)
  }

  lemma SamePrefix(prefix: string, s: string, t: string)
    requires prefix + s == prefix + t
    ensures s == t
  {
    assert (prefix + s)[|prefix|..] == s && (prefix + t)[|prefix|..] == t;
  }

  lemma KindOfKey(b: Board, user: uint64)
    ensures BoardKey(b)[8] == if b.AllMembers? then 'a' else 'o'
    ensures UserHashKey(user)[8] == 'u'
  {
    assert "ranking:all_members:"[8] == 'a' && "ranking:org:"[8] == 'o' && "ranking:user:"[8] == 'u';
  }

  /** Different boards have different keys, whatever text the platforms are. */
  lemma BoardKeysAreDistinct(b: Board, c: Board)
    requires BoardKey(b) == BoardKey(c)
    ensures b == c
  {
    KindOfKey(b, 0);
    KindOfKey(c, 0);
    match b
    case AllMembers(platform) => SamePrefix("ranking:all_members:", platform, c.platform);
    case OfOrg(org, platform) =>
      SamePrefix("ranking:org:", Print(org) + [':'] + platform, Print(c.org) + [':'] + c.platform);
      DigitsThenSeparator(Print(org), platform, Print(c.org), c.platform, ':');
      PrintIsInjective(org, c.org);
  }

  lemma UserKeysAreDistinct(b: Board, user: uint64, other: uint64)
    ensures UserHashKey(user) != BoardKey(b)
    ensures UserHashKey(user) == UserHashKey(other) ==> user == other
  {
    KindOfKey(b, user);
    if UserHashKey(user) == UserHashKey(other) {
      SamePrefix("ranking:user:", Print(user), Print(other));
      PrintIsInjective(user, other);
    }
  }

  // ----- the store -----

  /** All sorted sets of the store: the score at a key and member. */
  type Ranks = map<(string, string), int64>

  function RankAt(ranks: Ranks, b: Board, user: uint64): Option<int64> {
    if (BoardKey(b), Print(user)) in ranks then Some(ranks[(BoardKey(b), Print(user))]) else None
  }

  lemma CellsAreDistinct(b: Board, user: uint64, c: Board, other: uint64)
    requires (BoardKey(b), Print(user)) == (BoardKey(c), Print(other))
    ensures b == c && user == other
  {
    BoardKeysAreDistinct(b, c);
    PrintIsInjective(user, other);
  }

  function ZRem(ranks: Ranks, b: Board, user: uint64): Ranks {
    ranks - {(BoardKey(b), Print(user))}
  }

  function ZAdd(ranks: Ranks, b: Board, user: uint64, score: int64): Ranks {
    ranks[(BoardKey(b), Print(user)) := score]
  }

  lemma ZRemAt(ranks: Ranks, b: Board, user: uint64, c: Board, other: uint64)
    ensures RankAt(ZRem(ranks, b, user), c, other) == if c == b && other == user then None else RankAt(ranks, c, other)
  {
    if (BoardKey(b), Print(user)) == (BoardKey(c), Print(other)) {
      CellsAreDistinct(b, user, c, other);
    }
  }

  lemma ZAddAt(ranks: Ranks, b: Board, user: uint64, score: int64, c: Board, other: uint64)
    ensures RankAt(ZAdd(ranks, b, user, score), c, other) ==
            if c == b && other == user then Some(score) else RankAt(ranks, c, other)
  {
    if (BoardKey(b), Print(user)) == (BoardKey(c), Print(other)) {
      CellsAreDistinct(b, user, c, other);
    }
  }

  // ----- what the boards should hold -----

  /** The platform whose name this is. */
  function PlatformOf(name: string): Option<Platform> {
    if name == PlatformName(Luogu) then Some(Luogu)
    else if name == PlatformName(Leetcode) then Some(Leetcode)
    else if name == PlatformName(Lanqiao) then Some(Lanqiao)
    else None
  }

  lemma PlatformOfName(platform: Platform)
    ensures PlatformOf(PlatformName(platform)) == Some(platform)
  {
    NormalizeInvertsName(platform);
    NormalizeInvertsName(Luogu);
    NormalizeInvertsName(Leetcode);
  }

  function Org(p: Projection): uint64 {
    if p.orgId.Some? then p.orgId.value else 0
  }

  predicate Ranked(p: Projection, platform: Platform) {
    p.active && ProfileOn(p, platform).identifier != ""
  }

  /** The simple projection: the score a user should have on a board, if any. */
  function Expected(p: Projection, b: Board): Option<int64> {
    var platform := PlatformOf(b.platform);
    if platform.None? || !Ranked(p, platform.value) then None
    else if b.OfOrg? && (b.org == 0 || b.org != Org(p)) then None
    else Some(ProfileOn(p, platform.value).score)
  }

  type Table = map<uint64, Projection>

  function ExpectedIn(table: Table, user: uint64, b: Board): Option<int64> {
    if user in table then Expected(table[user], b) else None
  }

  /** A user is on exactly the boards the projection says, with the projection's score. */
  ghost predicate Agrees(ranks: Ranks, table: Table) {
    forall b: Board, user: uint64 :: RankAt(ranks, b, user) == ExpectedIn(table, user, b)
  }

  // ----- one synchronisation -----

  function RemoveFrom(ranks: Ranks, orgs: seq<uint64>, platform: string, user: uint64): Ranks {
    if orgs == [] then ranks
    else ZRem(RemoveFrom(ranks, orgs[..|orgs| - 1], platform, user), OfOrg(orgs[|orgs| - 1], platform), user)
  }

  function SyncPlatform(ranks: Ranks, p: Projection, orgs: seq<uint64>, platform: Platform): Ranks {
    var name, profile := PlatformName(platform), ProfileOn(p, platform);
    var removed := RemoveFrom(ZRem(ranks, AllMembers(name), p.userId), orgs, name, p.userId);
    if !Ranked(p, platform) then removed
    else
      var added := ZAdd(removed, AllMembers(name), p.userId, profile.score);
      if Org(p) > 0 then ZAdd(added, OfOrg(Org(p), name), p.userId, profile.score) else added
  }

  function DeletePlatform(ranks: Ranks, user: uint64, orgs: seq<uint64>, platform: Platform): Ranks {
    RemoveFrom(ZRem(ranks, AllMembers(PlatformName(platform)), user), orgs, PlatformName(platform), user)
  }

  lemma {:induction false} RemoveFromAt(ranks: Ranks, orgs: seq<uint64>, platform: string, user: uint64, b: Board, other: uint64)
    ensures RankAt(RemoveFrom(ranks, orgs, platform, user), b, other) ==
            if b.OfOrg? && b.platform == platform && b.org in orgs && other == user then None else RankAt(ranks, b, other)
  {
    if orgs != [] {
      var last := |orgs| - 1;
      RemoveFromAt(ranks, orgs[..last], platform, user, b, other);
      ZRemAt(RemoveFrom(ranks, orgs[..last], platform, user), OfOrg(orgs[last], platform), user, b, other);
      assert orgs == orgs[..last] + [orgs[last]];
    }
  }

  predicate Touched(b: Board, orgs: seq<uint64>, platform: Platform) {
    b.platform == PlatformName(platform) && (b.OfOrg? ==> b.org in orgs)
  }

  lemma DeletePlatformAt(ranks: Ranks, user: uint64, orgs: seq<uint64>, platform: Platform, b: Board, other: uint64)
    ensures RankAt(DeletePlatform(ranks, user, orgs, platform), b, other) ==
            if Touched(b, orgs, platform) && other == user then None else RankAt(ranks, b, other)
  {
    var name := PlatformName(platform);
    RemoveFromAt(ZRem(ranks, AllMembers(name), user), orgs, name, user, b, other);
    ZRemAt(ranks, AllMembers(name), user, b, other);
  }

  lemma SyncPlatformAt(ranks: Ranks, p: Projection, orgs: seq<uint64>, platform: Platform, b: Board, other: uint64)
    requires 0 !in orgs && (Org(p) == 0 || Org(p) in orgs)
    ensures RankAt(SyncPlatform(ranks, p, orgs, platform), b, other) ==
            if Touched(b, orgs, platform) && other == p.userId then Expected(p, b) else RankAt(ranks, b, other)
  {
    var name, score := PlatformName(platform), ProfileOn(p, platform).score;
    PlatformOfName(platform);
    var removed := DeletePlatform(ranks, p.userId, orgs, platform);
    DeletePlatformAt(ranks, p.userId, orgs, platform, b, other);
    if Ranked(p, platform) {
      ZAddAt(removed, AllMembers(name), p.userId, score, b, other);
      var added := ZAdd(removed, AllMembers(name), p.userId, score);
      if Org(p) > 0 {
        ZAddAt(added, OfOrg(Org(p), name), p.userId, score, b, other);
      }
    }
  }

  // ----- the organisations to clean -----

  function Deduped(orgs: seq<uint64>): (r: seq<uint64>)
    ensures forall o: uint64 :: o in r <==> o in orgs && o != 0
    ensures forall i, j | 0 <= i < j < |r| :: r[i] != r[j]
  {
    if orgs == [] then []
    else
      var r, last := Deduped(orgs[..|orgs| - 1]), orgs[|orgs| - 1];
      assert orgs == orgs[..|orgs| - 1] + [last];
      if last == 0 || last in r then r else r + [last]
  }

  function WithCurrent(orgs: seq<uint64>, current: uint64): (r: seq<uint64>)
    ensures forall o: uint64 :: o in r <==> o != 0 && (o in orgs || o == current)
    ensures forall i, j | 0 <= i < j < |r| :: r[i] != r[j]
  {
    if current > 0 && current !in Deduped(orgs) then Deduped(orgs) + [current] else Deduped(orgs)
  }

  /** dedupeOrgIDs: the listed organisations and the current one, each once, zero left out. */
  method DedupeOrgIds(orgs: seq<uint64>, current: Option<uint64>) returns (result: seq<uint64>)
    ensures result == WithCurrent(orgs, if current.Some? then current.value else 0)
    ensures forall o: uint64 :: o in result <==> o != 0 && (o in orgs || current == Some(o))
    ensures forall i, j | 0 <= i < j < |result| :: result[i] != result[j]
  {
    var index: set<uint64> := {};
    result := [];
    for k := 0 to |orgs|
      invariant result == Deduped(orgs[..k])
      invariant forall o :: o in index <==> o in result
    {
      assert orgs[..k + 1][..k] == orgs[..k];
      var org := orgs[k];
      if org == 0 {
        continue;
      }
      if org in index {
        continue;
      }
      index := index + {org};
      result := result + [org];
    }
    assert orgs[..|orgs|] == orgs;
    if current.Some? && current.value > 0 {
      if current.value !in index {
        result := result + [current.value];
      }
    }
  }

  // ----- whole operations -----

  function Synced(ranks: Ranks, p: Projection, orgs: seq<uint64>): Ranks {
    var remove := WithCurrent(orgs, Org(p));
    SyncPlatform(SyncPlatform(SyncPlatform(ranks, p, remove, Luogu), p, remove, Leetcode), p, remove, Lanqiao)
  }

  function Deleted(ranks: Ranks, user: uint64, orgs: seq<uint64>): Ranks {
    var remove := WithCurrent(orgs, 0);
    DeletePlatform(DeletePlatform(DeletePlatform(ranks, user, remove, Luogu), user, remove, Leetcode), user, remove, Lanqiao)
  }

  /** The boards an operation cleans when it is given the organisations `orgs`. */
  predicate Cleaned(b: Board, orgs: seq<uint64>, current: uint64) {
    PlatformOf(b.platform).Some? && (b.OfOrg? ==> b.org != 0 && (b.org in orgs || b.org == current))
  }

  lemma CleanedIffTouched(b: Board, orgs: seq<uint64>, current: uint64)
    ensures var remove := WithCurrent(orgs, current);
            Cleaned(b, orgs, current) <==> Touched(b, remove, Luogu) || Touched(b, remove, Leetcode) || Touched(b, remove, Lanqiao)
  {
    PlatformOfName(Luogu);
    PlatformOfName(Leetcode);
    PlatformOfName(Lanqiao);
  }

  /** After a sync the user's cleaned boards are as they should be, and nothing else has changed. */
  lemma SyncedAt(ranks: Ranks, p: Projection, orgs: seq<uint64>, b: Board, other: uint64)
    ensures RankAt(Synced(ranks, p, orgs), b, other) ==
            if Cleaned(b, orgs, Org(p)) && other == p.userId then Expected(p, b) else RankAt(ranks, b, other)
  {
    var remove := WithCurrent(orgs, Org(p));
    CleanedIffTouched(b, orgs, Org(p));
    var one := SyncPlatform(ranks, p, remove, Luogu);
    var two := SyncPlatform(one, p, remove, Leetcode);
    SyncPlatformAt(ranks, p, remove, Luogu, b, other);
    SyncPlatformAt(one, p, remove, Leetcode, b, other);
    SyncPlatformAt(two, p, remove, Lanqiao, b, other);
  }

  lemma DeletedAt(ranks: Ranks, user: uint64, orgs: seq<uint64>, b: Board, other: uint64)
    ensures RankAt(Deleted(ranks, user, orgs), b, other) ==
            if Cleaned(b, orgs, 0) && other == user then None else RankAt(ranks, b, other)
  {
    var remove := WithCurrent(orgs, 0);
    CleanedIffTouched(b, orgs, 0);
    var one := DeletePlatform(ranks, user, remove, Luogu);
    var two := DeletePlatform(one, user, remove, Leetcode);
    DeletePlatformAt(ranks, user, remove, Luogu, b, other);
    DeletePlatformAt(one, user, remove, Leetcode, b, other);
    DeletePlatformAt(two, user, remove, Lanqiao, b, other);
  }

  // ----- any history of operations -----

  datatype Op = Sync(p: Projection, orgs: seq<uint64>) | Delete(user: uint64, orgs: seq<uint64>)

  function UserOf(op: Op): uint64 {
    if op.Sync? then op.p.userId else op.user
  }

  function ApplyOp(ranks: Ranks, op: Op): Ranks {
    if UserOf(op) == 0 then ranks
    else match op
      case Sync(p, orgs) => Synced(ranks, p, orgs)
      case Delete(user, orgs) => Deleted(ranks, user, orgs)
  }

  function Record(table: Table, op: Op): Table {
    if UserOf(op) == 0 then table
    else match op
      case Sync(p, _) => table[p.userId := p]
      case Delete(user, _) => table - {user}
  }

  /** The previous projection put the user on some organisation's board. */
  predicate OnOrgBoard(p: Projection) {
    Org(p) > 0 && (Ranked(p, Luogu) || Ranked(p, Leetcode) || Ranked(p, Lanqiao))
  }

  /** The call names the organisation whose boards the user was on, if any and if it is left. */
  predicate NamesPreviousOrg(table: Table, op: Op) {
    var user := UserOf(op);
    || user == 0 || user !in table || !OnOrgBoard(table[user])
    || Org(table[user]) in op.orgs
    || (op.Sync? && Org(op.p) == Org(table[user]))
  }

  lemma ApplyOpAt(ranks: Ranks, op: Op, b: Board, other: uint64)
    requires UserOf(op) != 0
    ensures RankAt(ApplyOp(ranks, op), b, other) ==
            if Cleaned(b, op.orgs, if op.Sync? then Org(op.p) else 0) && other == UserOf(op) then
              (if op.Sync? then Expected(op.p, b) else None)
            else RankAt(ranks, b, other)
  {
    match op
    case Sync(p, orgs) => SyncedAt(ranks, p, orgs, b, other);
    case Delete(user, orgs) => DeletedAt(ranks, user, orgs, b, other);
  }

  /** A projection expects nothing on a board that its sync does not clean. */
  lemma ExpectedIsCleaned(p: Projection, orgs: seq<uint64>, b: Board)
    requires !Cleaned(b, orgs, Org(p))
    ensures Expected(p, b).None?
  {
  }

  lemma NamedOrgKeepsAgreement(ranks: Ranks, table: Table, op: Op)
    requires Agrees(ranks, table) && NamesPreviousOrg(table, op)
    ensures Agrees(ApplyOp(ranks, op), Record(table, op))
  {
    if UserOf(op) != 0 {
      forall b: Board, user: uint64
        ensures RankAt(ApplyOp(ranks, op), b, user) == ExpectedIn(Record(table, op), user, b)
      {
        ApplyOpAt(ranks, op, b, user);
        assert RankAt(ranks, b, user) == ExpectedIn(table, user, b);
        if op.Sync? && !Cleaned(b, op.orgs, Org(op.p)) {
          ExpectedIsCleaned(op.p, op.orgs, b);
        }
      }
    }
  }

  lemma UnnamedOrgBreaksAgreement(ranks: Ranks, table: Table, op: Op)
    requires Agrees(ranks, table) && !NamesPreviousOrg(table, op)
    ensures !Agrees(ApplyOp(ranks, op), Record(table, op))
  {
    var user := UserOf(op);
    var previous := table[user];
    var platform := if Ranked(previous, Luogu) then Luogu else if Ranked(previous, Leetcode) then Leetcode else Lanqiao;
    var b := OfOrg(Org(previous), PlatformName(platform));
    PlatformOfName(platform);
    assert RankAt(ranks, b, user) == ExpectedIn(table, user, b);
    ApplyOpAt(ranks, op, b, user);
    assert RankAt(ApplyOp(ranks, op), b, user).Some?;
    assert ExpectedIn(Record(table, op), user, b).None?;
  }

  /** One call keeps the boards in agreement exactly when it names the organisation the user leaves. */
  lemma AgreementKeptIff(ranks: Ranks, table: Table, op: Op)
    requires Agrees(ranks, table)
    ensures Agrees(ApplyOp(ranks, op), Record(table, op)) <==> NamesPreviousOrg(table, op)
  {
    if NamesPreviousOrg(table, op) {
      NamedOrgKeepsAgreement(ranks, table, op);
    } else {
      UnnamedOrgBreaksAgreement(ranks, table, op);
    }
  }

  /** The user of an active projection with one account, and that account's score. */
  function Member(user: uint64, org: uint64, identifier: string, score: int64): Projection {
    var none := Profile("", "", 0);
    Projection(user, "", "", Some(org), "", true, Profile(identifier, "", score), none, none)
  }

  /** From empty boards: any user who moves to another organisation in a sync that does not name the old one stays on its board. */
  lemma MovedUserStaysOnOldBoard(user: uint64, org: uint64, next: uint64, score: int64)
    requires user != 0 && org != 0 && org != next
    ensures var ops := [Sync(Member(user, org, "a", score), []), Sync(Member(user, next, "a", score), [])];
            && RankAt(RanksAfter(map[], ops), OfOrg(org, "luogu"), user) == Some(score)
            && ExpectedIn(TableAfter(map[], ops), user, OfOrg(org, "luogu")).None?
  {
    var first, second := Sync(Member(user, org, "a", score), []), Sync(Member(user, next, "a", score), []);
    var b := OfOrg(org, "luogu");
    PlatformOfName(Luogu);
    var ops := [first, second];
    assert ops[1..] == [second] && [second][1..] == [];
    assert RanksAfter(ApplyOp(map[], first), [second]) == ApplyOp(ApplyOp(map[], first), second);
    assert TableAfter(Record(map[], first), [second]) == Record(Record(map[], first), second);
    ApplyOpAt(map[], first, b, user);
    ApplyOpAt(ApplyOp(map[], first), second, b, user);
  }

  ghost predicate EachNamesPreviousOrg(table: Table, ops: seq<Op>)
    decreases |ops|
  {
    ops == [] || (NamesPreviousOrg(table, ops[0]) && EachNamesPreviousOrg(Record(table, ops[0]), ops[1..]))
  }

  function RanksAfter(ranks: Ranks, ops: seq<Op>): Ranks
    decreases |ops|
  {
    if ops == [] then ranks else RanksAfter(ApplyOp(ranks, ops[0]), ops[1..])
  }

  function TableAfter(table: Table, ops: seq<Op>): Table
    decreases |ops|
  {
    if ops == [] then table else TableAfter(Record(table, ops[0]), ops[1..])
  }

  /** After any history of such calls a user is on exactly the boards of the last projection, with its score. */
  lemma {:induction false} BoardsAgree(ranks: Ranks, table: Table, ops: seq<Op>)
    requires Agrees(ranks, table) && EachNamesPreviousOrg(table, ops)
    ensures Agrees(RanksAfter(ranks, ops), TableAfter(table, ops))
    decreases |ops|
  {
    if ops != [] {
      NamedOrgKeepsAgreement(ranks, table, ops[0]);
      BoardsAgree(ApplyOp(ranks, ops[0]), Record(table, ops[0]), ops[1..]);
    }
  }

  // ----- boards and hash side by side -----

  predicate Blank(p: Projection, platform: Platform) {
    var identifier := ProfileOn(p, platform).identifier;
    p.active && identifier != "" && TrimSpace(identifier) == ""
  }

  predicate AnyBlank(p: Projection) {
    Blank(p, Luogu) || Blank(p, Leetcode) || Blank(p, Lanqiao)
  }

  lemma NormalRanked(p: Projection, platform: Platform)
    ensures Ranked(Normal(p), platform) <==> Ranked(p, platform) && !Blank(p, platform)
    ensures ProfileOn(Normal(p), platform).score == ProfileOn(p, platform).score
  {
    assert ProfileOn(Normal(p), platform) == NormalProfile(ProfileOn(p, platform));
    assert TrimSpace("") == "";
  }

  lemma NormalExpected(p: Projection, b: Board)
    requires !AnyBlank(p)
    ensures Expected(Normal(p), b) == Expected(p, b)
  {
    if PlatformOf(b.platform).Some? {
      NormalRanked(p, PlatformOf(b.platform).value);
    }
  }

  lemma BlankExpected(p: Projection) returns (b: Board)
    requires AnyBlank(p)
    ensures Expected(Normal(p), b) != Expected(p, b)
  {
    var platform := if Blank(p, Luogu) then Luogu else if Blank(p, Leetcode) then Leetcode else Lanqiao;
    PlatformOfName(platform);
    NormalRanked(p, platform);
    b := AllMembers(PlatformName(platform));
  }

  ghost predicate SameBoards(p: Projection, q: Projection) {
    forall b: Board :: Expected(p, b) == Expected(q, b)
  }

  /** The boards and the hash put a user on the same boards exactly when no bound identifier is only white space. */
  lemma BoardsMatchHashIff(earlier: Hash, p: Projection)
    requires p.userId != 0
    ensures Decode(p.userId, earlier + HashOf(p)).Some?
    ensures SameBoards(Decode(p.userId, earlier + HashOf(p)).value, p) <==> !AnyBlank(p)
  {
    ReadAfterWrite(earlier, p);
    if AnyBlank(p) {
      var b := BlankExpected(p);
    } else {
      forall b: Board
        ensures Expected(Normal(p), b) == Expected(p, b)
      {
        NormalExpected(p, b);
      }
    }
  }

  lemma ReadAlone(p: Projection)
    requires p.userId != 0
    ensures Decode(p.userId, HashOf(p)) == Some(Normal(p))
  {
    var none: Hash := map[];
    ReadAfterWrite(none, p);
    assert none + HashOf(p) == HashOf(p);
  }

  lemma BlankIsNotRanked(user: uint64, org: uint64, score: int64)
    ensures !Ranked(Normal(Member(user, org, " ", score)), Luogu)
  {
    NormalRanked(Member(user, org, " ", score), Luogu);
    assert TrimSpace(" ") == "";
  }

  /** An identifier that is one space: the user is on the platform's board, and not according to the hash. */
  lemma BlankIdentifierSplitsBoardAndHash(user: uint64, org: uint64, score: int64)
    requires user != 0
    ensures var p := Member(user, org, " ", score);
            && Expected(p, AllMembers("luogu")) == Some(score)
            && Decode(user, HashOf(p)) == Some(Normal(p)) && Expected(Normal(p), AllMembers("luogu")).None?
  {
    PlatformOfName(Luogu);
    ReadAlone(Member(user, org, " ", score));
    BlankIsNotRanked(user, org, score);
  }

  // ----- the store's operations -----

  class RankingStore {
    var ranks: Ranks
    var hashes: map<string, Hash>
    var active: map<uint64, bool>

    constructor ()
      ensures ranks == map[] && hashes == map[] && active == map[]
    {
      ranks, hashes, active := map[], map[], map[];
    }

    /** HSET keeps the fields it does not name. */
    method WriteProjection(p: Projection)
      modifies this`hashes
      ensures p.userId == 0 ==> hashes == old(hashes)
      ensures p.userId != 0 ==>
                var key := UserHashKey(p.userId);
                && hashes == old(hashes)[key := (if key in old(hashes) then old(hashes)[key] else map[]) + HashOf(p)]
                && Decode(p.userId, hashes[key]) == Some(Normal(p))
    {
      if p.userId == 0 {
        return;
      }
      ghost var earlier := PutHash(p);
      ReadAfterWrite(earlier, p);
    }

    /** HSET with all fields of the projection. */
    method PutHash(p: Projection) returns (ghost earlier: Hash)
      modifies this`hashes
      ensures var key := UserHashKey(p.userId);
              && earlier == (if key in old(hashes) then old(hashes)[key] else map[])
              && hashes == old(hashes)[key := earlier + HashOf(p)]
    {
      var key := UserHashKey(p.userId);
      var values := HashValues(p);
      earlier := if key in hashes then hashes[key] else map[];
      hashes := hashes[key := (if key in hashes then hashes[key] else map[]) + values];
    }

    method RemoveFromOrgs(orgs: seq<uint64>, platform: string, user: uint64)
      modifies this`ranks
      ensures ranks == RemoveFrom(old(ranks), orgs, platform, user)
    {
      for i := 0 to |orgs|
        invariant ranks == RemoveFrom(old(ranks), orgs[..i], platform, user)
      {
        assert orgs[..i + 1][..i] == orgs[..i];
        ranks := ZRem(ranks, OfOrg(orgs[i], platform), user);
      }
      assert orgs[..|orgs|] == orgs;
    }

    /** SyncProjectionRanks: one pipeline over the three platforms. */
    method SyncProjectionRanks(p: Projection, orgs: seq<uint64>)
      modifies this`ranks
      ensures ranks == ApplyOp(old(ranks), Sync(p, orgs))
    {
      if p.userId == 0 {
        return;
      }
      var remove := DedupeOrgIds(orgs, p.orgId);
      SyncOn(p, remove, Luogu);
      SyncOn(p, remove, Leetcode);
      SyncOn(p, remove, Lanqiao);
    }

    method SyncOn(p: Projection, remove: seq<uint64>, platform: Platform)
      modifies this`ranks
      ensures ranks == SyncPlatform(old(ranks), p, remove, platform)
    {
      var name, profile := PlatformName(platform), ProfileOn(p, platform);
      ranks := ZRem(ranks, AllMembers(name), p.userId);
      RemoveFromOrgs(remove, name, p.userId);
      if !p.active || profile.identifier == "" {
        return;
      }
      ranks := ZAdd(ranks, AllMembers(name), p.userId, profile.score);
      if p.orgId.Some? && p.orgId.value > 0 {
        ranks := ZAdd(ranks, OfOrg(p.orgId.value, name), p.userId, profile.score);
      }
    }

    method DeleteProjection(user: uint64, orgs: seq<uint64>)
      modifies this
      ensures ranks == ApplyOp(old(ranks), Delete(user, orgs))
      ensures hashes == if user == 0 then old(hashes) else old(hashes) - {UserHashKey(user)}
    {
      if user == 0 {
        return;
      }
      hashes := hashes - {UserHashKey(user)};
      var remove := DedupeOrgIds(orgs, None);
      DeleteOn(user, remove, Luogu);
      DeleteOn(user, remove, Leetcode);
      DeleteOn(user, remove, Lanqiao);
    }

    method DeleteOn(user: uint64, remove: seq<uint64>, platform: Platform)
      modifies this`ranks
      ensures ranks == DeletePlatform(old(ranks), user, remove, platform)
    {
      ranks := ZRem(ranks, AllMembers(PlatformName(platform)), user);
      RemoveFromOrgs(remove, PlatformName(platform), user);
    }

    /** Deleting every key with one of the two board prefixes. */
    method ClearBoards()
      modifies this`ranks
      ensures Agrees(ranks, map[])
      ensures forall cell | cell in old(ranks) :: cell in ranks <==> !IsBoardKey(cell.0)
      ensures forall cell | cell in ranks :: cell in old(ranks) && ranks[cell] == old(ranks)[cell]
    {
      ranks := map cell | cell in ranks && !IsBoardKey(cell.0) :: ranks[cell];
      forall b: Board, user: uint64
        ensures RankAt(ranks, b, user).None?
      {
        assert IsBoardKey(BoardKey(b));
      }
    }

    /** A user who is on no board yet. */
    method SyncUnseen(p: Projection, ghost table: Table)
      requires Agrees(ranks, table) && p.userId != 0 && p.userId !in table
      modifies this`ranks
      ensures Agrees(ranks, Record(table, Sync(p, [])))
    {
      NamedOrgKeepsAgreement(ranks, table, Sync(p, []));
      SyncProjectionRanks(p, []);
    }

    /** A full rebuild repairs the boards, whatever they held. */
    method RebuildBoards(items: seq<Projection>)
      requires forall i | 0 <= i < |items| :: items[i].userId != 0
      requires forall i, j | 0 <= i < j < |items| :: items[i].userId != items[j].userId
      modifies this`ranks
      ensures Agrees(ranks, TableAfter(map[], SyncAll(items)))
    {
      ClearBoards();
      ghost var table: Table := map[];
      for i := 0 to |items|
        invariant Agrees(ranks, table)
        invariant table == TableAfter(map[], SyncAll(items[..i]))
        invariant forall user | user in table :: exists k :: 0 <= k < i && items[k].userId == user
      {
        SyncUnseen(items[i], table);
        assert items[..i + 1] == items[..i] + [items[i]];
        SyncOneMore(items[..i], items[i]);
        table := Record(table, Sync(items[i], []));
      }
      assert items[..|items|] == items;
    }

    /** The user hashes start afresh, and each is what its user's projection is written as. */
    method RebuildHashes(items: seq<Projection>)
      requires forall i | 0 <= i < |items| :: items[i].userId != 0
      requires forall i, j | 0 <= i < j < |items| :: items[i].userId != items[j].userId
      modifies this`hashes
      ensures HashesHold(hashes, items)
      ensures forall key | !IsUserKey(key) :: key in hashes <==> key in old(hashes)
      ensures forall key | !IsUserKey(key) && key in hashes :: hashes[key] == old(hashes)[key]
    {
      hashes := map key | key in hashes && !IsUserKey(key) :: hashes[key];
      for i := 0 to |items|
        invariant HashesHoldUpTo(hashes, items, i)
        invariant forall key | !IsUserKey(key) :: key in hashes <==> key in old(hashes)
        invariant forall key | !IsUserKey(key) && key in hashes :: hashes[key] == old(hashes)[key]
      {
        ghost var before := hashes;
        FirstHash(hashes, items, i);
        RebuildHash(items[i]);
        OneMoreHash(before, hashes, items, i);
      }
    }

    method RebuildHash(p: Projection)
      requires p.userId != 0 && UserHashKey(p.userId) !in hashes
      modifies this`hashes
      ensures hashes == old(hashes)[UserHashKey(p.userId) := HashOf(p)]
    {
      ghost var earlier := PutHash(p);
      assert map[] + HashOf(p) == HashOf(p);
    }

    method RebuildActive(items: seq<Projection>)
      requires forall i, j | 0 <= i < j < |items| :: items[i].userId != items[j].userId
      modifies this`active
      ensures ActiveHolds(active, items)
    {
      active := map[];
      for i := 0 to |items|
        invariant ActiveHoldsUpTo(active, items, i)
      {
        active := active[items[i].userId := items[i].active];
      }
    }

    /** A full rebuild: boards, hashes and the cached active states all say what the read models say. */
    method RebuildAll(items: seq<Projection>)
      requires forall i | 0 <= i < |items| :: items[i].userId != 0
      requires forall i, j | 0 <= i < j < |items| :: items[i].userId != items[j].userId
      modifies this
      ensures Agrees(ranks, TableAfter(map[], SyncAll(items)))
      ensures HashesHold(hashes, items) && ActiveHolds(active, items)
    {
      RebuildHashes(items);
      RebuildActive(items);
      RebuildBoards(items);
    }
  }

  /** The cached states are those of the projections' users. */
  ghost predicate ActiveHolds(active: map<uint64, bool>, items: seq<Projection>) {
    ActiveHoldsUpTo(active, items, |items|)
  }

  ghost predicate ActiveHoldsUpTo(active: map<uint64, bool>, items: seq<Projection>, n: nat)
    requires n <= |items|
  {
    && (forall user | user in active :: exists i :: 0 <= i < n && items[i].userId == user)
    && (forall i | 0 <= i < n :: items[i].userId in active && active[items[i].userId] == items[i].active)
  }

  predicate IsUserKey(key: string) {
    "ranking:user:" <= key
  }

  ghost predicate HashIs(hashes: map<string, Hash>, p: Projection) {
    var key := UserHashKey(p.userId);
    key in hashes && hashes[key] == HashOf(p)
  }

  /** Such a hash reads back as the projection's normal form. */
  lemma HashReadsBack(hashes: map<string, Hash>, p: Projection)
    requires HashIs(hashes, p) && p.userId != 0
    ensures Decode(p.userId, hashes[UserHashKey(p.userId)]) == Some(Normal(p))
  {
    assert map[] + HashOf(p) == HashOf(p);
    ReadAfterWrite(map[], p);
  }

  /** The user hashes are those of the projections, and no others. */
  ghost predicate HashesHold(hashes: map<string, Hash>, items: seq<Projection>) {
    HashesHoldUpTo(hashes, items, |items|)
  }

  ghost predicate HashesHoldUpTo(hashes: map<string, Hash>, items: seq<Projection>, n: nat)
    requires n <= |items|
  {
    && (forall key | key in hashes && IsUserKey(key) :: IsKeyOfOne(key, items, n))
    && (forall i | 0 <= i < n :: HashIs(hashes, items[i]))
  }

  predicate IsKeyOfOne(key: string, items: seq<Projection>, n: nat)
    requires n <= |items|
  {
    exists i :: 0 <= i < n && key == UserHashKey(items[i].userId)
  }

  lemma KeyOfOneMore(key: string, items: seq<Projection>, i: nat)
    requires i < |items| && (IsKeyOfOne(key, items, i) || key == UserHashKey(items[i].userId))
    ensures IsKeyOfOne(key, items, i + 1)
  {
  }

  lemma FirstHash(hashes: map<string, Hash>, items: seq<Projection>, i: nat)
    requires i < |items| && HashesHoldUpTo(hashes, items, i) && forall j | 0 <= j < i :: items[j].userId != items[i].userId
    ensures UserHashKey(items[i].userId) !in hashes
  {
    var key := UserHashKey(items[i].userId);
    if key in hashes {
      assert IsUserKey(key);
      var j :| 0 <= j < i && key == UserHashKey(items[j].userId);
      UserKeysDiffer(items[j].userId, items[i].userId);
      assert false;
    }
  }

  lemma OtherHash(before: map<string, Hash>, after: map<string, Hash>, p: Projection, user: uint64, h: Hash)
    requires HashIs(before, p) && p.userId != user && after == before[UserHashKey(user) := h]
    ensures HashIs(after, p)
  {
    UserKeysDiffer(p.userId, user);
  }

  lemma UserKeysDiffer(one: uint64, other: uint64)
    requires one != other
    ensures UserHashKey(one) != UserHashKey(other)
  {
    if UserHashKey(one) == UserHashKey(other) {
      UserKeysAreDistinct(AllMembers(""), one, other);
    }
  }

  lemma OneMoreHash(before: map<string, Hash>, after: map<string, Hash>, items: seq<Projection>, i: nat)
    requires i < |items| && HashesHoldUpTo(before, items, i) && forall j | 0 <= j < i :: items[j].userId != items[i].userId
    requires after == before[UserHashKey(items[i].userId) := HashOf(items[i])]
    ensures HashesHoldUpTo(after, items, i + 1)
  {
    forall key | key in after && IsUserKey(key)
      ensures IsKeyOfOne(key, items, i + 1)
    {
      KeyOfOneMore(key, items, i);
    }
    forall j | 0 <= j < i
      ensures HashIs(after, items[j])
    {
      OtherHash(before, after, items[j], items[i].userId, HashOf(items[i]));
    }
  }

  predicate IsBoardKey(key: string) {
    "ranking:org:" <= key || "ranking:all_members:" <= key
  }

  function SyncAll(items: seq<Projection>): seq<Op> {
    seq(|items|, i requires 0 <= i < |items| => Sync(items[i], []))
  }

  lemma SyncOneMore(items: seq<Projection>, p: Projection)
    ensures TableAfter(map[], SyncAll(items + [p])) == Record(TableAfter(map[], SyncAll(items)), Sync(p, []))
  {
    assert SyncAll(items + [p]) == SyncAll(items) + [Sync(p, [])];
    TableAfterAppend(map[], SyncAll(items), Sync(p, []));
  }

  lemma {:induction false} TableAfterAppend(table: Table, ops: seq<Op>, op: Op)
    ensures TableAfter(table, ops + [op]) == Record(TableAfter(table, ops), op)
    decreases |ops|
  {
    if ops == [] {
      assert ([] + [op])[1..] == [];
      assert TableAfter(table, [op]) == TableAfter(Record(table, op), [op][1..]);
    } else {
      assert (ops + [op])[1..] == ops[1..] + [op];
      TableAfterAppend(Record(table, ops[0]), ops[1..], op);
    }
  }
}
