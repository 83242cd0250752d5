/** The dashboard's categorising `reduce`, shared verbatim by leads, invoices
    and deals: it walks the fetched list once, creating a bucket the first
    time a status is seen and appending each entity to its status's bucket.
    The accumulator is a plain object, so its keys keep insertion order, the
    order `Object.entries` later lists them in. */
module StatusGrouping {
  import opened Text
  import opened Seqs

  /** A lead, invoice or deal as the dashboard reads it. */
  datatype Entity = Entity(id: String, status: String)

  /** The accumulator object: its keys in insertion order and the bucket
      stored under each key. */
  datatype Grouping = Grouping(order: seq<String>, buckets: map<String, seq<Entity>>)

  /** A plain object: every key listed once, and the listed keys are the keys. */
  predicate WellFormed(g: Grouping)
  {
    && (forall i, j :: 0 <= i < j < |g.order| ==> g.order[i] != g.order[j])
    && (forall k :: k in g.order ==> k in g.buckets)
    && (forall k :: k in g.buckets ==> k in g.order)
  }

  const Empty: Grouping := Grouping([], map[])

  function HasStatus(k: String): Entity -> bool
  {
    (e: Entity) => e.status == k
  }

  /** The entities of `s` whose status is `k`, in input order. */
  function Bucket(s: seq<Entity>, k: String): seq<Entity>
  {
    Filter(s, HasStatus(k))
  }

  /** The distinct statuses of `s`, in order of first appearance. */
  function StatusesInOrder(s: seq<Entity>): seq<String>
  {
    if s == [] then []
    else
      var earlier := StatusesInOrder(s[..|s| - 1]);
      if s[|s| - 1].status in earlier then earlier else earlier + [s[|s| - 1].status]
  }

  /** The object the reduce should build: one key per distinct status, in
      first-appearance order, holding that status's entities. */
  function GroupingOf(s: seq<Entity>): Grouping
  {
    var order := StatusesInOrder(s);
    Grouping(order, map k | k in order :: Bucket(s, k))
  }

  /** The buckets laid end to end in key order. */
  function Flatten(order: seq<String>, buckets: map<String, seq<Entity>>): seq<Entity>
    requires forall k :: k in order ==> k in buckets
  {
    if order == [] then []
    else Flatten(order[..|order| - 1], buckets) + buckets[order[|order| - 1]]
  }

  /** The statuses listed are distinct, and are exactly the statuses that
      occur in the input. */
  lemma {:induction false} StatusesInOrderSpec(s: seq<Entity>)
    ensures forall i, j :: 0 <= i < j < |StatusesInOrder(s)| ==> StatusesInOrder(s)[i] != StatusesInOrder(s)[j]
    ensures forall k :: k in StatusesInOrder(s) <==> exists e :: e in s && e.status == k
  {
    if s != [] {
      var init := s[..|s| - 1];
      var last := s[|s| - 1];
      StatusesInOrderSpec(init);
      assert s == init + [last];
      forall k ensures k in StatusesInOrder(s) <==> exists e :: e in s && e.status == k {
        if k in StatusesInOrder(init) {
          var e :| e in init && e.status == k;
          assert e in s;
        }
        if exists e :: e in s && e.status == k {
          var e :| e in s && e.status == k;
          if e != last {
            assert e in init;
          }
        }
      }
    }
  }

  lemma BucketSnoc(s: seq<Entity>, e: Entity, k: String)
    ensures Bucket(s + [e], k) == Bucket(s, k) + (if e.status == k then [e] else [])
  {
    FilterAppend(s, [e], HasStatus(k));
    assert [e][1..] == [];
  }

  /** One step of the reduce: appending an entity to the input appends its
      status to the key order if it is new, and appends the entity to its
      own bucket, leaving the other buckets alone. */
  lemma GroupingSnoc(s: seq<Entity>, e: Entity)
    ensures var g := GroupingOf(s);
            var k := e.status;
            GroupingOf(s + [e]) ==
              Grouping(if k in g.buckets then g.order else g.order + [k],
                       g.buckets[k := (if k in g.buckets then g.buckets[k] else []) + [e]])
  {
    var g := GroupingOf(s);
    var s' := s + [e];
    assert s'[..|s'| - 1] == s;
    var g' := GroupingOf(s');
    var k := e.status;
    var want := g.buckets[k := (if k in g.buckets then g.buckets[k] else []) + [e]];
    if k !in g.order {
      assert Bucket(s, k) == [] by {
        StatusesInOrderSpec(s);
        FilterMembership(s, HasStatus(k), if Bucket(s, k) == [] then e else Bucket(s, k)[0]);
      }
    }
    forall j | j in g'.order ensures g'.buckets[j] == want[j] {
      BucketSnoc(s, e, j);
    }
    assert g'.buckets == want;
  }

  /** The reduce, written as the loop it performs. */
  method Categorize(entities: seq<Entity>) returns (g: Grouping)
    ensures g == GroupingOf(entities)
  {
    var order: seq<String> := [];
    var buckets: map<String, seq<Entity>> := map[];
    for i := 0 to |entities|
      invariant Grouping(order, buckets) == GroupingOf(entities[..i])
    {
      var e := entities[i];
      GroupingSnoc(entities[..i], e);
      assert entities[..i + 1] == entities[..i] + [e];
      if e.status !in buckets {
        buckets := buckets[e.status := []];
        order := order + [e.status];
      }
      buckets := buckets[e.status := buckets[e.status] + [e]];
    }
    assert entities[..|entities|] == entities;
    g := Grouping(order, buckets);
  }

  lemma {:induction false} FlattenAgree(order: seq<String>, b1: map<String, seq<Entity>>, b2: map<String, seq<Entity>>)
    requires forall k :: k in order ==> k in b1 && k in b2 && b1[k] == b2[k]
    ensures Flatten(order, b1) == Flatten(order, b2)
  {
    if order != [] {
      FlattenAgree(order[..|order| - 1], b1, b2);
    }
  }

  /** Appending one entity to one listed bucket adds it once to the
      flattened multiset. */
  lemma {:induction false} FlattenGrow(order: seq<String>, b: map<String, seq<Entity>>, k: String, e: Entity)
    requires forall i, j :: 0 <= i < j < |order| ==> order[i] != order[j]
    requires forall j :: j in order ==> j in b
    requires k in order
    ensures multiset(Flatten(order, b[k := b[k] + [e]])) == multiset(Flatten(order, b)) + multiset{e}
  {
    var b' := b[k := b[k] + [e]];
    var init := order[..|order| - 1];
    var last := order[|order| - 1];
    if last == k {
      assert k !in init;
      FlattenAgree(init, b, b');
    } else {
      assert k in init;
      FlattenGrow(init, b, k, e);
    }
  }

  /** The key order lists each key once and lists exactly the keys. */
  lemma GroupingWellFormed(s: seq<Entity>)
    ensures WellFormed(GroupingOf(s))
  {
    StatusesInOrderSpec(s);
  }

  /** The buckets, laid end to end in key order, are a permutation of the
      input. */
  lemma {:induction false} FlattenIsPermutation(s: seq<Entity>)
    ensures multiset(Flatten(GroupingOf(s).order, GroupingOf(s).buckets)) == multiset(s)
  {
    if s != [] {
      var init := s[..|s| - 1];
      var e := s[|s| - 1];
      assert s == init + [e];
      FlattenIsPermutation(init);
      GroupingWellFormed(init);
      GroupingSnoc(init, e);
      var g := GroupingOf(init);
      var g' := GroupingOf(s);
      var k := e.status;
      if k in g.buckets {
        assert g'.order == g.order && g'.buckets == g.buckets[k := g.buckets[k] + [e]];
        FlattenGrow(g.order, g.buckets, k, e);
      } else {
        assert [] + [e] == [e];
        assert g'.order == g.order + [k] && g'.buckets == g.buckets[k := [e]];
        assert g'.order[..|g'.order| - 1] == g.order;
        FlattenAgree(g.order, g.buckets, g'.buckets);
        assert Flatten(g'.order, g'.buckets) == Flatten(g.order, g.buckets) + [e];
      }
    }
  }

  /** After categorising, every entity sits in the bucket of its own status
      and in no other, every bucket is non-empty and keeps input order, and
      the buckets together hold exactly the input. */
  lemma GroupingIsPartition(s: seq<Entity>)
    ensures var g := GroupingOf(s);
            && WellFormed(g)
            && (forall e :: e in s ==> e.status in g.buckets && e in g.buckets[e.status])
            && (forall k, e :: k in g.buckets && e in g.buckets[k] ==> e.status == k)
            && (forall k :: k in g.buckets ==> g.buckets[k] != [] && SubseqOf(g.buckets[k], s))
            && multiset(Flatten(g.order, g.buckets)) == multiset(s)
  {
    var g := GroupingOf(s);
    FlattenIsPermutation(s);
    GroupingWellFormed(s);
    StatusesInOrderSpec(s);
    forall e | e in s ensures e.status in g.buckets && e in g.buckets[e.status] {
      FilterMembership(s, HasStatus(e.status), e);
    }
    forall k | k in g.buckets ensures g.buckets[k] != [] && SubseqOf(g.buckets[k], s) {
      var e :| e in s && e.status == k;
      FilterMembership(s, HasStatus(k), e);
      FilterKeeps(s, HasStatus(k));
    }
  }

  /** An empty list categorises to an empty object. */
  lemma GroupingOfEmpty()
    ensures GroupingOf([]) == Empty
  {
  }
}
