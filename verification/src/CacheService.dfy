/**
 * The cache service's own methods over the Redis state of module TaggedCache, run without interleaving.
 * `begun` plays the database: its value is what a producer returns.
 */
module CacheService {
  import opened TaggedCache

  function InvalidateOne(s: State, t: Tag): State {
    s.(entries := s.entries - Members(s, t), tagSets := s.tagSets - {t}, begun := s.begun + 1,
       invalidated := s.invalidated[t := s.begun + 1])
  }

  /** The tags one after the other. */
  function InvalidateAll(s: State, tags: seq<Tag>): State {
    if tags == [] then s else InvalidateOne(InvalidateAll(s, tags[..|tags| - 1]), tags[|tags| - 1])
  }

  ghost predicate Quiet(s: State) {
    && s.producing == map[] && s.windows == map[]
    && forall t :: Invalidated(s, t) <= s.begun
  }

  /** Both round trips of one invalidation. */
  lemma InvalidateOneIsScanDrop(s: State, t: Tag)
    requires Quiet(s)
    ensures InvalidateOne(s, t) == Apply(Apply(s, Scan(0, t)), Drop(0))
    ensures Quiet(InvalidateOne(s, t))
  {
    assert Apply(s, Scan(0, t)).windows - {0} == map[];
    assert Invalidated(Apply(s, Scan(0, t)), t) == Invalidated(s, t) <= s.begun;
    assert forall u :: Invalidated(InvalidateOne(s, t), u) <= if u == t then s.begun + 1 else Invalidated(s, u);
  }

  /** An invalidation keeps the tag index complete. */
  lemma InvalidateOneKeepsIndex(s: State, t: Tag)
    requires Indexed(s)
    ensures Indexed(InvalidateOne(s, t))
    ensures forall k | Live(InvalidateOne(s, t), k) :: Live(s, k) && t !in s.entries[k].tags
  {
  }

  /** After invalidateTags no live key carries any of the tags, and the surviving entries are untouched. */
  lemma {:induction false} InvalidateAllRemovesEveryTagged(s: State, tags: seq<Tag>, k: Key)
    requires Quiet(s) && Indexed(s) && Live(InvalidateAll(s, tags), k)
    ensures Live(s, k) && InvalidateAll(s, tags).entries[k] == s.entries[k]
    ensures forall t | t in tags :: t !in s.entries[k].tags
    ensures Quiet(InvalidateAll(s, tags))
  {
    IndexKept(s, tags);
    if tags != [] {
      var n := |tags| - 1;
      IndexKept(s, tags[..n]);
      InvalidateOneKeepsIndex(InvalidateAll(s, tags[..n]), tags[n]);
      InvalidateAllRemovesEveryTagged(s, tags[..n], k);
      assert tags == tags[..n] + [tags[n]];
    }
  }

  lemma {:induction false} IndexKept(s: State, tags: seq<Tag>)
    requires Quiet(s) && Indexed(s)
    ensures Quiet(InvalidateAll(s, tags)) && Indexed(InvalidateAll(s, tags))
    ensures InvalidateAll(s, tags).clock == s.clock
  {
    if tags != [] {
      var n := |tags| - 1;
      IndexKept(s, tags[..n]);
      InvalidateOneKeepsIndex(InvalidateAll(s, tags[..n]), tags[n]);
      InvalidateOneIsScanDrop(InvalidateAll(s, tags[..n]), tags[n]);
    }
  }

  function Tags(tags: seq<Tag>): set<Tag> { set t | t in tags }

  class Cache {
    var clock: nat
    var entries: map<Key, Entry>
    var tagSets: map<Tag, TagSet>
    var begun: nat
    ghost var invalidated: map<Tag, nat>
    var hits: nat
    var misses: nat

    ghost function Snapshot(): State
      reads this
    {
      State(clock, entries, tagSets, begun, invalidated, map[], map[])
    }

    /** The pipeline's SADD and EXPIRE commands, tag by tag, as one new set of tag sets. */
    method BindTags(key: Key, tags: seq<Tag>, expires: nat) returns (sets: map<Tag, TagSet>)
      requires clock < expires
      ensures sets == Bind(Snapshot(), key, Tags(tags), expires)
    {
      ghost var s := Snapshot();
      sets := tagSets;
      BindNone(s, key, expires);
      for i := 0 to |tags|
        invariant sets == Bind(s, key, Tags(tags[..i]), expires)
      {
        BindOne(s, key, Tags(tags[..i]), expires, tags[i]);
        var members := if tags[i] in sets && clock < sets[tags[i]].expires then sets[tags[i]].members else {};
        sets := sets[tags[i] := TagSet(members + {key}, expires)];
        assert Tags(tags[..i + 1]) == Tags(tags[..i]) + {tags[i]};
      }
      assert tags[..|tags|] == tags;
    }

    /** SET EX together with the tag commands. */
    method Store(key: Key, value: nat, ttl: nat, tags: seq<Tag>)
      requires Quiet(Snapshot()) && value == begun
      modifies this`entries, this`tagSets
      ensures entries == old(entries)[key := Entry(value, clock + ttl, Tags(tags), false)]
      ensures tagSets == Bind(old(Snapshot()), key, Tags(tags), clock + ttl + TAG_TTL_BUFFER_SECONDS)
    {
      tagSets := BindTags(key, tags, clock + ttl + TAG_TTL_BUFFER_SECONDS);
      entries := entries[key := Entry(value, clock + ttl, Tags(tags), false)];
    }

    /**
     * A live key is returned as stored; otherwise the producer's value is stored under its tags and
     * returned. Either way the value is at least as new as the last invalidation of the stored tags.
     */
    method GetOrSet(key: Key, ttl: nat, tags: seq<Tag>) returns (value: nat)
      requires Quiet(Snapshot())
      modifies this`entries, this`tagSets, this`hits, this`misses
      ensures var s := old(Snapshot());
              if key in s.entries && clock < s.entries[key].expires then
                value == s.entries[key].made && Snapshot() == s && hits == old(hits) + 1 && misses == old(misses)
              else
                && value == begun && hits == old(hits) && misses == old(misses) + 1
                && Snapshot() == Apply(Apply(s, Produce(0, key, ttl, Tags(tags))), TaggedCache.Store(0))
                && !Stale(Snapshot(), value, Tags(tags))
    {
      ghost var s := Snapshot();
      if key in entries && clock < entries[key].expires {
        hits := hits + 1;
        return entries[key].made;
      }
      misses := misses + 1;
      value := begun;
      Store(key, value, ttl, tags);
      StoreIsTwoEvents(s, key, ttl, Tags(tags));
    }

    /** Every tag in turn: read its members, delete them, delete the set. */
    method InvalidateTags(tags: seq<Tag>)
      requires Quiet(Snapshot())
      modifies this`entries, this`tagSets, this`begun, this`invalidated
      ensures Snapshot() == InvalidateAll(old(Snapshot()), tags)
    {
      ghost var s := Snapshot();
      for i := 0 to |tags|
        invariant Snapshot() == InvalidateAll(s, tags[..i])
      {
        var t := tags[i];
        var members := if t in tagSets && clock < tagSets[t].expires then tagSets[t].members else {};
        entries := entries - members;
        tagSets := tagSets - {t};
        begun := begun + 1;
        invalidated := invalidated[t := begun];
        assert tags[..i + 1][..i] == tags[..i];
      }
      assert tags[..|tags|] == tags;
    }
  }

  lemma BindNone(s: State, key: Key, expires: nat)
    ensures Bind(s, key, {}, expires) == s.tagSets
  {
  }

  /** One more tag in the loop; a repeated tag changes nothing. */
  lemma BindOne(s: State, key: Key, tags: set<Tag>, expires: nat, t: Tag)
    requires s.clock < expires
    ensures var b := Bind(s, key, tags, expires);
            var members := if t in b && s.clock < b[t].expires then b[t].members else {};
            Bind(s, key, tags + {t}, expires) == b[t := TagSet(members + {key}, expires)]
  {
  }

  lemma StoreIsTwoEvents(s: State, key: Key, ttl: nat, tags: set<Tag>)
    requires Quiet(s)
    ensures var s' := s.(entries := s.entries[key := Entry(s.begun, s.clock + ttl, tags, false)],
                         tagSets := Bind(s, key, tags, s.clock + ttl + TAG_TTL_BUFFER_SECONDS));
            Apply(Apply(s, Produce(0, key, ttl, tags)), TaggedCache.Store(0)) == s' && !Stale(s', s.begun, tags)
  {
    var s1 := Apply(s, Produce(0, key, ttl, tags));
    assert s1.producing - {0} == map[];
    assert forall t :: Invalidated(s1, t) == Invalidated(s, t);
    assert Bind(s1, key, tags, s.clock + ttl + TAG_TTL_BUFFER_SECONDS)
        == Bind(s, key, tags, s.clock + ttl + TAG_TTL_BUFFER_SECONDS);
    var s' := s.(entries := s.entries[key := Entry(s.begun, s.clock + ttl, tags, false)],
                 tagSets := Bind(s, key, tags, s.clock + ttl + TAG_TTL_BUFFER_SECONDS));
    assert forall t :: Invalidated(s', t) == Invalidated(s, t);
  }
}
