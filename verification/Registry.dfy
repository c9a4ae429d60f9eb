/**
 The three maps of the SSE broker, as values: all connections by id, and the same
 connections bucketed by subject and by channel. `H` is whatever a registered
 connection refers to beyond its immutable identity.
 */
module Registry {
  import opened Wrappers

  /** The immutable part of a connection; `principal` holds the SubjectID of a non-nil Principal. */
  datatype Conn<+H> = Conn(id: string, principal: Option<nat>, channel: string, handle: H)

  /** A connection without a principal, or with subject 0, is in no subject bucket. */
  function SubjectKey<H>(c: Conn<H>): Option<nat> {
    if c.principal.Some? && c.principal.value > 0 then c.principal else None
  }

  function ChannelKey<H>(c: Conn<H>): Option<string> {
    if c.channel != "" then Some(c.channel) else None
  }

  // What the source's comments say of the two keys, in terms of the connection's own fields.

  predicate OnSubject<H>(c: Conn<H>, subject: nat) {
    subject > 0 && c.principal == Some(subject)
  }

  predicate OnChannel<H>(c: Conn<H>, channel: string) {
    channel != "" && c.channel == channel
  }

  lemma KeysAreFields<H>(c: Conn<H>)
    ensures forall subject: nat :: SubjectKey(c) == Some(subject) <==> OnSubject(c, subject)
    ensures forall channel :: ChannelKey(c) == Some(channel) <==> OnChannel(c, channel)
  {
  }

  type Index<!K, H> = map<K, map<string, Conn<H>>>

  /** Go's `index[k][c.id] = c`, creating the bucket when it is missing. */
  function AddTo<K, H>(index: Index<K, H>, key: Option<K>, c: Conn<H>): Index<K, H> {
    if key.None? then index
    else index[key.value := (if key.value in index then index[key.value] else map[])[c.id := c]]
  }

  /** Go's `delete(index[k], id)`, dropping a bucket that becomes empty. */
  function DropFrom<K, H>(index: Index<K, H>, key: Option<K>, id: string): Index<K, H> {
    if key.None? || key.value !in index then index
    else
      var bucket := index[key.value] - {id};
      if |bucket| == 0 then index - {key.value} else index[key.value := bucket]
  }

  datatype Registry<H> = Registry(
    conns: map<string, Conn<H>>,
    bySubject: Index<nat, H>,
    byChannel: Index<string, H>)

  function Empty<H>(): Registry<H> {
    Registry(map[], map[], map[])
  }

  function Insert<H>(r: Registry<H>, c: Conn<H>): Registry<H> {
    Registry(r.conns[c.id := c], AddTo(r.bySubject, SubjectKey(c), c), AddTo(r.byChannel, ChannelKey(c), c))
  }

  function Remove<H>(r: Registry<H>, id: string): Registry<H> {
    if id !in r.conns then r
    else
      var c := r.conns[id];
      Registry(r.conns - {id}, DropFrom(r.bySubject, SubjectKey(c), id), DropFrom(r.byChannel, ChannelKey(c), id))
  }

  function Bucket<K, H>(index: Index<K, H>, k: K): map<string, Conn<H>> {
    if k in index then index[k] else map[]
  }

  /** The per-subject limit, tested before a connection is inserted. */
  predicate TooMany<H>(r: Registry<H>, c: Conn<H>, max: nat) {
    SubjectKey(c).Some? && |Bucket(r.bySubject, SubjectKey(c).value)| >= max
  }

  // ----- what the indexes are meant to be -----

  ghost predicate HasKey<K(!new), H>(conns: map<string, Conn<H>>, key: Conn<H> -> Option<K>, id: string, k: K) {
    id in conns && key(conns[id]) == Some(k)
  }

  /** `index` is the grouping of `conns` by `key`: right members, and no empty bucket. */
  ghost predicate Groups<K(!new), H>(index: Index<K, H>, conns: map<string, Conn<H>>, key: Conn<H> -> Option<K>) {
    && (forall k | k in index :: index[k] != map[])
    && (forall k, id :: id in Bucket(index, k) <==> HasKey(conns, key, id, k))
    && (forall k, id | id in Bucket(index, k) && id in conns :: Bucket(index, k)[id] == conns[id])
  }

  ghost predicate Agrees<H>(r: Registry<H>) {
    && (forall id | id in r.conns :: r.conns[id].id == id)
    && Groups(r.bySubject, r.conns, (c: Conn<H>) => SubjectKey(c))
    && Groups(r.byChannel, r.conns, (c: Conn<H>) => ChannelKey(c))
  }

  ghost predicate WithinLimit<H>(r: Registry<H>, max: nat) {
    forall s | s in r.bySubject :: |r.bySubject[s]| <= max
  }

  /** Replacing a registered connection keeps an index right only if the old one sat in the same bucket or in none. */
  ghost predicate Replaceable<K(!new), H>(conns: map<string, Conn<H>>, key: Conn<H> -> Option<K>, c: Conn<H>) {
    c.id in conns ==> key(conns[c.id]).None? || key(conns[c.id]) == key(c)
  }

  lemma AddKeepsGroupsIff<K(!new), H>(index: Index<K, H>, conns: map<string, Conn<H>>, key: Conn<H> -> Option<K>, c: Conn<H>)
    requires Groups(index, conns, key)
    ensures Groups(AddTo(index, key(c), c), conns[c.id := c], key) <==> Replaceable(conns, key, c)
  {
    var index', conns' := AddTo(index, key(c), c), conns[c.id := c];
    if Replaceable(conns, key, c) {
      forall k, id
        ensures id in Bucket(index', k) <==> HasKey(conns', key, id, k)
      {
        assert id in Bucket(index, k) <==> HasKey(conns, key, id, k);
      }
      forall k, id | id in Bucket(index', k) && id in conns'
        ensures Bucket(index', k)[id] == conns'[id]
      {
        assert id in Bucket(index, k) <==> HasKey(conns, key, id, k);
      }
      forall k | k in index'
        ensures index'[k] != map[]
      {
        if key(c) == Some(k) {
          assert c.id in index'[k];
        }
      }
    } else {
      var k := key(conns[c.id]).value;
      assert HasKey(conns, key, c.id, k);
      assert c.id in Bucket(index', k) && !HasKey(conns', key, c.id, k);
    }
  }

  lemma DropAt<K(!new), H>(index: Index<K, H>, conns: map<string, Conn<H>>, key: Conn<H> -> Option<K>, id: string, k: K, other: string)
    requires Groups(index, conns, key) && id in conns
    ensures var left := Bucket(DropFrom(index, key(conns[id]), id), k);
            && (other in left <==> HasKey(conns - {id}, key, other, k))
            && (other in left ==> left[other] == conns[other])
  {
    assert id in Bucket(index, k) <==> HasKey(conns, key, id, k);
    assert other in Bucket(index, k) <==> HasKey(conns, key, other, k);
    if key(conns[id]) == Some(k) && other in Bucket(index, k) && other != id {
      assert other in index[k] - {id};
    }
  }

  lemma DropKeepsGroups<K(!new), H>(index: Index<K, H>, conns: map<string, Conn<H>>, key: Conn<H> -> Option<K>, id: string)
    requires Groups(index, conns, key) && id in conns
    ensures Groups(DropFrom(index, key(conns[id]), id), conns - {id}, key)
  {
    var index', conns' := DropFrom(index, key(conns[id]), id), conns - {id};
    forall k, other
      ensures other in Bucket(index', k) <==> HasKey(conns', key, other, k)
      ensures other in Bucket(index', k) ==> Bucket(index', k)[other] == conns'[other]
    {
      DropAt(index, conns, key, id, k, other);
    }
  }

  /** The registered connections of a subject, and those of a channel. */
  function OfSubject<H>(conns: map<string, Conn<H>>, subject: nat): map<string, Conn<H>> {
    map id | id in conns && OnSubject(conns[id], subject) :: conns[id]
  }

  function OfChannel<H>(conns: map<string, Conn<H>>, channel: string): map<string, Conn<H>> {
    map id | id in conns && OnChannel(conns[id], channel) :: conns[id]
  }

  /** Every bucket of an agreeing registry, by the fields of the connections; nobody is on subject 0 or the empty channel. */
  lemma BucketsByFields<H>(r: Registry<H>)
    requires Agrees(r)
    ensures forall subject :: Bucket(r.bySubject, subject) == OfSubject(r.conns, subject)
    ensures forall channel :: Bucket(r.byChannel, channel) == OfChannel(r.conns, channel)
    ensures Bucket(r.bySubject, 0) == map[] && Bucket(r.byChannel, "") == map[]
  {
    forall subject
      ensures Bucket(r.bySubject, subject) == OfSubject(r.conns, subject)
    {
      SubjectBucket(r, subject);
    }
    forall channel
      ensures Bucket(r.byChannel, channel) == OfChannel(r.conns, channel)
    {
      ChannelBucket(r, channel);
    }
  }

  lemma SubjectBucket<H>(r: Registry<H>, subject: nat)
    requires Agrees(r)
    ensures Bucket(r.bySubject, subject) == OfSubject(r.conns, subject)
  {
    forall id
      ensures id in Bucket(r.bySubject, subject) <==> id in OfSubject(r.conns, subject)
    {
      assert id in Bucket(r.bySubject, subject) <==> HasKey(r.conns, (c: Conn<H>) => SubjectKey(c), id, subject);
    }
  }

  lemma ChannelBucket<H>(r: Registry<H>, channel: string)
    requires Agrees(r)
    ensures Bucket(r.byChannel, channel) == OfChannel(r.conns, channel)
  {
    forall id
      ensures id in Bucket(r.byChannel, channel) <==> id in OfChannel(r.conns, channel)
    {
      assert id in Bucket(r.byChannel, channel) <==> HasKey(r.conns, (c: Conn<H>) => ChannelKey(c), id, channel);
    }
  }

  predicate IsCrowded<H>(conns: map<string, Conn<H>>, c: Conn<H>, max: nat) {
    c.principal.Some? && c.principal.value > 0 && |OfSubject(conns, c.principal.value)| >= max
  }

  /** The per-subject limit, by the fields: so many connections of the new one's subject are registered already. */
  lemma TooManyIff<H>(r: Registry<H>, c: Conn<H>, max: nat)
    requires Agrees(r)
    ensures TooMany(r, c, max) <==> IsCrowded(r.conns, c, max)
  {
    if SubjectKey(c).Some? {
      SubjectBucket(r, SubjectKey(c).value);
    }
  }

  // ----- the two updates -----

  lemma ReplaceableByFields<H>(conns: map<string, Conn<H>>, c: Conn<H>)
    ensures Replaceable(conns, (c: Conn<H>) => SubjectKey(c), c) <==>
            (c.id in conns ==> forall subject | OnSubject(conns[c.id], subject) :: OnSubject(c, subject))
    ensures Replaceable(conns, (c: Conn<H>) => ChannelKey(c), c) <==>
            (c.id in conns ==> forall channel | OnChannel(conns[c.id], channel) :: OnChannel(c, channel))
  {
    if c.id in conns {
      KeysAreFields(conns[c.id]);
      KeysAreFields(c);
    }
  }

  /** Whatever `Register` is given, the indexes stay the grouping of the id map exactly under this condition. */
  lemma InsertAgreesIff<H>(r: Registry<H>, c: Conn<H>)
    requires Agrees(r)
    ensures Agrees(Insert(r, c)) <==>
            (c.id in r.conns ==>
               && (forall subject | OnSubject(r.conns[c.id], subject) :: OnSubject(c, subject))
               && (forall channel | OnChannel(r.conns[c.id], channel) :: OnChannel(c, channel)))
  {
    ReplaceableByFields(r.conns, c);
    AddKeepsGroupsIff(r.bySubject, r.conns, (c: Conn<H>) => SubjectKey(c), c);
    AddKeepsGroupsIff(r.byChannel, r.conns, (c: Conn<H>) => ChannelKey(c), c);
  }

  lemma RemoveAgrees<H>(r: Registry<H>, id: string)
    requires Agrees(r)
    ensures Agrees(Remove(r, id))
    ensures Remove(r, id).conns == r.conns - {id}
  {
    if id in r.conns {
      DropKeepsGroups(r.bySubject, r.conns, (c: Conn<H>) => SubjectKey(c), id);
      DropKeepsGroups(r.byChannel, r.conns, (c: Conn<H>) => ChannelKey(c), id);
    } else {
      assert r.conns - {id} == r.conns;
    }
  }

  lemma InsertWithinLimit<H>(r: Registry<H>, c: Conn<H>, max: nat)
    requires WithinLimit(r, max) && !TooMany(r, c, max)
    ensures WithinLimit(Insert(r, c), max)
  {
    if SubjectKey(c).Some? {
      var s := SubjectKey(c).value;
      var before := Bucket(r.bySubject, s);
      assert before[c.id := c].Keys == before.Keys + {c.id};
    }
  }

  lemma RemoveWithinLimit<H>(r: Registry<H>, id: string, max: nat)
    requires WithinLimit(r, max)
    ensures WithinLimit(Remove(r, id), max)
  {
    if id in r.conns && SubjectKey(r.conns[id]).Some? {
      var s := SubjectKey(r.conns[id]).value;
      if s in r.bySubject {
        SmallerMap(r.bySubject[s], id);
      }
    }
  }

  lemma SmallerMap<V>(m: map<string, V>, id: string)
    ensures |m - {id}| <= |m|
  {
    assert (m - {id}).Keys == m.Keys - {id};
    if id !in m {
      assert m - {id} == m;
    } else {
      assert m.Keys == (m - {id}).Keys + {id};
    }
  }

  // ----- what agreement gives -----

  /** The id map fixes both indexes: two registries that agree and hold the same connections are the same. */
  lemma ConnsDetermineIndexes<H>(r: Registry<H>, s: Registry<H>)
    requires Agrees(r) && Agrees(s) && r.conns == s.conns
    ensures r == s
  {
    GroupingIsUnique(r.bySubject, s.bySubject, r.conns, (c: Conn<H>) => SubjectKey(c));
    GroupingIsUnique(r.byChannel, s.byChannel, r.conns, (c: Conn<H>) => ChannelKey(c));
  }

  lemma GroupingIsUnique<K(!new), H>(a: Index<K, H>, b: Index<K, H>, conns: map<string, Conn<H>>, key: Conn<H> -> Option<K>)
    requires Groups(a, conns, key) && Groups(b, conns, key)
    ensures a == b
  {
    forall k
      ensures k in a <==> k in b
      ensures k in a ==> a[k] == b[k]
    {
      forall id
        ensures id in Bucket(a, k) <==> id in Bucket(b, k)
        ensures id in Bucket(a, k) ==> Bucket(a, k)[id] == Bucket(b, k)[id]
      {
        assert id in Bucket(a, k) <==> HasKey(conns, key, id, k);
        assert id in Bucket(b, k) <==> HasKey(conns, key, id, k);
      }
      assert Bucket(a, k) == Bucket(b, k);
    }
  }

  function Subjects<H>(conns: map<string, Conn<H>>): set<nat> {
    set id | id in conns && conns[id].principal.Some? && conns[id].principal.value > 0 :: conns[id].principal.value
  }

  function Channels<H>(conns: map<string, Conn<H>>): set<string> {
    set id | id in conns && conns[id].channel != "" :: conns[id].channel
  }

  /** `Stats` is exact: the two index sizes count the subjects and channels that have a connection. */
  lemma StatsAreExact<H>(r: Registry<H>)
    requires Agrees(r)
    ensures r.bySubject.Keys == Subjects(r.conns) && r.byChannel.Keys == Channels(r.conns)
  {
    forall s
      ensures s in r.bySubject <==> exists id :: id in r.conns && SubjectKey(r.conns[id]) == Some(s)
    {
      KeysAreGroups(r.bySubject, r.conns, (c: Conn<H>) => SubjectKey(c), s);
    }
    forall ch
      ensures ch in r.byChannel <==> exists id :: id in r.conns && ChannelKey(r.conns[id]) == Some(ch)
    {
      KeysAreGroups(r.byChannel, r.conns, (c: Conn<H>) => ChannelKey(c), ch);
    }
  }

  lemma KeysAreGroups<K(!new), H>(index: Index<K, H>, conns: map<string, Conn<H>>, key: Conn<H> -> Option<K>, k: K)
    requires Groups(index, conns, key)
    ensures k in index <==> exists id :: id in conns && key(conns[id]) == Some(k)
  {
    if k in index {
      assert index[k] != map[];
      var id :| id in index[k];
      assert id in Bucket(index, k);
      assert HasKey(conns, key, id, k);
    }
    if id :| id in conns && key(conns[id]) == Some(k) {
      assert HasKey(conns, key, id, k);
      assert id in Bucket(index, k);
    }
  }

  /** A connection id given by two clients with different subjects: the old subject's bucket keeps a stale entry. */
  lemma ReusedIdBreaksAgreement()
    ensures var first, second := Conn("tab", Some(1), "", ()), Conn("tab", Some(2), "", ());
            var r := Insert(Empty(), first);
            Agrees(r) && !Agrees(Insert(r, second))
  {
    var first, second := Conn("tab", Some(1), "", ()), Conn("tab", Some(2), "", ());
    assert Agrees(Empty<()>()) && OnSubject(first, 1) && !OnSubject(second, 1);
    InsertAgreesIff(Empty(), first);
    InsertAgreesIff(Insert(Empty(), first), second);
  }
}
