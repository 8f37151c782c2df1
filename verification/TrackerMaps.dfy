/** The nested map `pending[bundle][builder]` against the flat map of the loop machine. */
module TrackerMaps {
  import opened TrackerTypes
  import opened TrackerLoop

  type Builders = map<string, PendingEntry>
  type Nested = map<string, Builders>

  function KeysIn(p: Nested): (keys: set<Key>)
    ensures forall k {:trigger k in keys} :: k in keys <==> k.bundleID in p && k.builder in p[k.bundleID]
  {
    set id, b | id in p && b in p[id] :: Key(id, b)
  }

  function Flat(p: Nested): map<Key, PendingEntry> {
    map k | k in KeysIn(p) :: p[k.bundleID][k.builder]
  }

  /** No bundle is kept without entries. */
  ghost predicate NoEmpty(p: Nested) {
    forall id :: id in p ==> p[id] != map[]
  }

  /** The bundle is present, and only it may be empty. */
  ghost predicate NoEmptyBut(p: Nested, id: string) {
    id in p && forall i :: i in p && i != id ==> p[i] != map[]
  }

  /** A nested map with a bundle shows an entry. */
  lemma FlatOccupied(p: Nested)
    requires NoEmpty(p)
    ensures p != map[] ==> Flat(p) != map[]
  {
    if p != map[] {
      var id :| id in p;
      var b :| b in p[id];
      assert Key(id, b) in Flat(p);
    }
  }

  lemma FlatPut(p: Nested, id: string, b: string, entry: PendingEntry)
    ensures var builders := if id in p then p[id] else map[];
            Flat(p[id := builders[b := entry]]) == Flat(p)[Key(id, b) := entry]
  {
    var builders := if id in p then p[id] else map[];
    var q := p[id := builders[b := entry]];
    assert KeysIn(q) == KeysIn(p) + {Key(id, b)};
  }

  lemma FlatDelete(p: Nested, id: string, b: string)
    requires id in p
    ensures Flat(p[id := p[id] - {b}]) == Flat(p) - {Key(id, b)}
  {
    var q := p[id := p[id] - {b}];
    assert KeysIn(q) == KeysIn(p) - {Key(id, b)};
  }

  lemma FlatDropEmpty(p: Nested, id: string)
    requires id in p && p[id] == map[]
    ensures Flat(p - {id}) == Flat(p)
  {
    assert KeysIn(p - {id}) == KeysIn(p);
  }

  /** Enriching one bundle's inner map, entry by entry, enriches exactly that bundle in the flat map. */
  lemma FlatEnrich(p: Nested, q: Nested, id: string, c: SimCacheEntry)
    requires p.Keys == q.Keys
    requires forall i :: i in p && i != id ==> q[i] == p[i]
    requires id in p ==> q[id].Keys == p[id].Keys
    requires id in p ==> forall b :: b in p[id] ==> q[id][b] == p[id][b].(record := Enrich(p[id][b].record, c))
    ensures Flat(q) == EnrichAll(Flat(p), id, c)
  {
    assert KeysIn(q) == KeysIn(p);
  }

  /** What a flush leaves of one bundle. */
  function Unexpired(builders: Builders, deadline: int, force: bool): Builders {
    map b | b in builders && !force && builders[b].receivedAt > deadline :: builders[b]
  }

  /** `now` is `was` with every builder but those in `todo` filtered. */
  ghost predicate PartSwept(was: Builders, now: Builders, todo: set<string>, deadline: int, force: bool) {
    && todo <= now.Keys
    && (forall b :: b in now <==> b in was && (b in todo || b in Unexpired(was, deadline, force)))
    && (forall b :: b in now ==> now[b] == was[b])
  }

  lemma PartSweptStep(was: Builders, now: Builders, todo: set<string>, b: string, deadline: int, force: bool)
    requires PartSwept(was, now, todo, deadline, force) && b in todo
    ensures var next := if force || now[b].receivedAt <= deadline then now - {b} else now;
            PartSwept(was, next, todo - {b}, deadline, force)
  {
  }

  lemma PutTwice(p: Nested, id: string, first: Builders, second: Builders)
    ensures p[id := first][id := second] == p[id := second] && p[id := first][id] == first
  {
  }

  /** One bundle filtered, and dropped if nothing is left. */
  function SweepOne(p: Nested, id: string, deadline: int, force: bool): Nested
    requires id in p
  {
    var left := Unexpired(p[id], deadline, force);
    if left == map[] then p - {id} else p[id := left]
  }

  /** `q` is `p` with every bundle but those in `todo` filtered. */
  ghost predicate Swept(p: Nested, q: Nested, todo: set<string>, deadline: int, force: bool) {
    && (forall id :: id in todo ==> id in p && id in q && q[id] == p[id] != map[])
    && (forall id :: id in q && id !in todo ==> id in p && q[id] == Unexpired(p[id], deadline, force) != map[])
    && (forall id :: id in p && id !in todo && id !in q ==> Unexpired(p[id], deadline, force) == map[])
  }

  lemma SweptStep(p: Nested, q: Nested, todo: set<string>, id: string, deadline: int, force: bool)
    requires Swept(p, q, todo, deadline, force) && id in todo
    ensures Swept(p, SweepOne(q, id, deadline, force), todo - {id}, deadline, force)
  {
  }

  /** Filtering bundle by bundle, and dropping emptied bundles, removes exactly the expired entries. */
  lemma FlatUnexpired(p: Nested, q: Nested, deadline: int, force: bool)
    requires Swept(p, q, {}, deadline, force)
    ensures Flat(p).Keys - Flat(q).Keys == Expired(Flat(p), deadline + HOLD, force)
  {
    forall k | k in Flat(p) ensures k in Flat(q) <==> k !in Expired(Flat(p), deadline + HOLD, force) {
      if k.bundleID !in q {
        assert k.builder !in Unexpired(p[k.bundleID], deadline, force);
      }
    }
  }
}
