/** One thread serving one position with nobody else running: the serial meaning of the steps that
    the pool interleaves. */
module ServeAlone {
  import opened Rows
  import opened CacheModel
  import opened Residency
  import opened SeenBits
  import opened ServeSteps

  /** A thread that serves `id` with nobody else running: the store and the row at the end. */
  function RunAlone(c: Config, s: Store, id: int, p: ServePc): (r: (Store, Row))
    requires ValidConfig(c) && StoreInv(c, s) && PcInv(c, s, id, p)
    requires p.Start? ==> InTable(c, id)
    ensures InTable(c, id) && StoreInv(c, r.0) && r.1 == Wanted(c, id)
    decreases ServeRank(p)
  {
    if p.Emit? then (s, p.row)
    else
      StepKeepsInv(c, s, id, p);
      StepProgresses(c, s, id, p);
      var (s', p') := ServeStep(c, s, id, p);
      RunAlone(c, s', id, p')
  }

  /** The bitmap part of a miss, run alone. */
  function MarkedAlone(c: Config, s: Store, id: nat): Store
    requires Owned(c, id) && (c.tracked ==> c.hi - c.lo <= 8 * |s.seen|)
  {
    if c.tracked && !Marked(s.seen, Local(c, id))
    then s.(seen := Mark(s.seen, Local(c, id)), unique := s.unique + 1, met := s.met + {id})
    else s
  }

  /** The invariant speaks of the cache and the bitmap, and of their histories. */
  lemma SameCacheKeepsInv(c: Config, s: Store, t: Store)
    requires ValidConfig(c) && StoreInv(c, s) && t.cache == s.cache && t.log == s.log && t.seen == s.seen
    requires t.met == s.met && t.missed >= s.missed
    ensures StoreInv(c, t)
  {
  }

  lemma MarkedKeepsInv(c: Config, s: Store, id: nat)
    requires ValidConfig(c) && StoreInv(c, s) && Owned(c, id)
    ensures StoreInv(c, MarkedAlone(c, Missed(s, id), id)) && (c.tracked ==> id in MarkedAlone(c, Missed(s, id), id).met)
  {
    SameCacheKeepsInv(c, s, Missed(s, id));
    if c.tracked {
      assert BitOf(c, s.seen, id) <==> id in s.met;
      if !Marked(s.seen, Local(c, id)) {
        MarkKeepsBits(c, s.seen, s.met, s.missed + {id}, id);
      }
    }
  }

  /** The second locked section. */
  function FilledAlone(c: Config, s: Store, id: nat, row: Row): Store
    requires ValidConfig(c) && Coherent(c, s.cache)
  {
    if c.sets == 0 then s
    else s.(cache := Insert(c, s.cache, id, row), log := s.log + [Fill(id, row)],
            evictions := s.evictions + if Evicts(s.cache[id % c.sets]) then 1 else 0)
  }

  /** What fetching one owned row does to the store when no other thread runs. */
  function FetchAlone(c: Config, s: Store, id: nat): Store
    requires ValidConfig(c) && Coherent(c, s.cache) && Owned(c, id) && (c.tracked ==> c.hi - c.lo <= 8 * |s.seen|)
  {
    if Probe(c, s.cache, id).Some? then s.(hits := s.hits + 1)
    else FilledAlone(c, MarkedAlone(c, Missed(s, id), id), id, c.table[id])
  }

  lemma FetchMiss(c: Config, s: Store, id: nat)
    requires ValidConfig(c) && StoreInv(c, s) && Owned(c, id) && Probe(c, s.cache, id).None?
    ensures var marked := MarkedAlone(c, Missed(s, id), id);
            && StoreInv(c, marked) && (c.tracked ==> id in marked.met)
            && FetchAlone(c, s, id) == FilledAlone(c, marked, id, c.table[id])
  {
    MarkedKeepsInv(c, s, id);
  }

  lemma FetchHit(c: Config, s: Store, id: nat)
    requires ValidConfig(c) && StoreInv(c, s) && Owned(c, id) && Probe(c, s.cache, id).Some?
    ensures FetchAlone(c, s, id) == s.(hits := s.hits + 1) && Probe(c, s.cache, id).value == c.table[id]
  {
    HitIsExact(c, s.cache, id);
  }

  lemma FetchKeepsInv(c: Config, s: Store, id: nat)
    requires ValidConfig(c) && StoreInv(c, s) && Owned(c, id)
    ensures StoreInv(c, FetchAlone(c, s, id))
  {
    if Probe(c, s.cache, id).None? {
      FetchMiss(c, s, id);
      FilledKeepsInv(c, MarkedAlone(c, Missed(s, id), id), id);
    } else {
      FetchHit(c, s, id);
      SameCacheKeepsInv(c, s, s.(hits := s.hits + 1));
    }
  }

  /** What a serial fetch counts: one hit if the row is resident, else one miss, and one distinct row if it was never
      missed before. */
  lemma FetchCounts(c: Config, s: Store, id: nat)
    requires ValidConfig(c) && StoreInv(c, s) && Owned(c, id)
    ensures var t := FetchAlone(c, s, id);
            if Probe(c, s.cache, id).Some? then t == s.(hits := s.hits + 1)
            else && t.hits == s.hits && t.misses == s.misses + 1 && t.missed == s.missed + {id}
                 && (c.tracked ==> t.met == s.met + {id} && t.unique == s.unique + if id in s.met then 0 else 1)
  {
    if Probe(c, s.cache, id).Some? {
      FetchHit(c, s, id);
    } else {
      FetchMiss(c, s, id);
      if c.tracked {
        assert BitOf(c, s.seen, id) <==> id in s.met;
      }
    }
  }

  lemma FilledKeepsInv(c: Config, s: Store, id: nat)
    requires ValidConfig(c) && StoreInv(c, s) && Owned(c, id) && (c.tracked ==> id in s.met)
    ensures StoreInv(c, FilledAlone(c, s, id, c.table[id]))
  {
    StepKeepsInv(c, s, id, Put(c.table[id]));
  }

  /** One step, and then the rest. */
  lemma StepAlone(c: Config, s: Store, id: int, p: ServePc)
    requires ValidConfig(c) && StoreInv(c, s) && PcInv(c, s, id, p) && !p.Emit? && (p.Start? ==> InTable(c, id))
    ensures var (t, q) := ServeStep(c, s, id, p);
            StoreInv(c, t) && PcInv(c, t, id, q) && !q.Start? && RunAlone(c, s, id, p) == RunAlone(c, t, id, q)
  {
    StepKeepsInv(c, s, id, p);
  }

  /** From a swap that has won on. */
  lemma WonAlone(c: Config, s: Store, id: int, row: Row)
    requires ValidConfig(c) && StoreInv(c, s) && PcInv(c, s, id, Won(row))
    ensures var m := s.(unique := s.unique + 1);
            && StoreInv(c, m) && PcInv(c, m, id, Put(row))
            && RunAlone(c, s, id, Won(row)) == RunAlone(c, m, id, Put(row))
  {
    StepAlone(c, s, id, Won(row));
  }

  /** An undisturbed swap of a byte without the bit. */
  lemma SwapAlone(c: Config, s: Store, id: int, row: Row)
    requires ValidConfig(c) && StoreInv(c, s) && PcInv(c, s, id, Load(row)) && !Marked(s.seen, Local(c, id))
    requires Local(c, id) / 8 < |s.seen| && PcInv(c, s, id, Swap(row, s.seen[Local(c, id) / 8]))
    ensures var m := s.(seen := Mark(s.seen, Local(c, id)), met := s.met + {id});
            && StoreInv(c, m) && PcInv(c, m, id, Won(row))
            && RunAlone(c, s, id, Swap(row, s.seen[Local(c, id) / 8])) == RunAlone(c, m, id, Won(row))
  {
    StepAlone(c, s, id, Swap(row, s.seen[Local(c, id) / 8]));
  }

  /** A load of a byte with the bit. */
  lemma LoadMarked(c: Config, s: Store, id: int, row: Row)
    requires ValidConfig(c) && StoreInv(c, s) && PcInv(c, s, id, Load(row)) && Marked(s.seen, Local(c, id))
    ensures PcInv(c, s, id, Put(row)) && RunAlone(c, s, id, Load(row)) == RunAlone(c, s, id, Put(row))
  {
    StepAlone(c, s, id, Load(row));
  }

  /** A load of a byte without it, and the swap that follows. */
  lemma LoadClear(c: Config, s: Store, id: int, row: Row)
    requires ValidConfig(c) && StoreInv(c, s) && PcInv(c, s, id, Load(row)) && !Marked(s.seen, Local(c, id))
    ensures var m := s.(seen := Mark(s.seen, Local(c, id)), met := s.met + {id});
            && StoreInv(c, m) && PcInv(c, m, id, Won(row)) && RunAlone(c, s, id, Load(row)) == RunAlone(c, m, id, Won(row))
  {
    StepAlone(c, s, id, Load(row));
    SwapAlone(c, s, id, row);
  }

  /** From the load of the bitmap byte on. */
  lemma LoadAlone(c: Config, s: Store, id: int, row: Row)
    requires ValidConfig(c) && StoreInv(c, s) && PcInv(c, s, id, Load(row))
    ensures var m := MarkedAlone(c, s, id);
            StoreInv(c, m) && PcInv(c, m, id, Put(row)) && RunAlone(c, s, id, Load(row)) == RunAlone(c, m, id, Put(row))
  {
    if Marked(s.seen, Local(c, id)) {
      LoadMarked(c, s, id, row);
    } else {
      var m := s.(seen := Mark(s.seen, Local(c, id)), met := s.met + {id});
      LoadClear(c, s, id, row);
      WonAlone(c, m, id, row);
      assert MarkedAlone(c, s, id) == m.(unique := m.unique + 1);
    }
  }

  /** From the miss counter on. */
  lemma TallyAlone(c: Config, s: Store, id: int, row: Row)
    requires ValidConfig(c) && StoreInv(c, s) && PcInv(c, s, id, Tally(row))
    ensures var m := MarkedAlone(c, Missed(s, id), id);
            StoreInv(c, m) && PcInv(c, m, id, Put(row)) && RunAlone(c, s, id, Tally(row)) == RunAlone(c, m, id, Put(row))
  {
    StepAlone(c, s, id, Tally(row));
    if c.tracked {
      LoadAlone(c, Missed(s, id), id, row);
    }
  }

  lemma MissAlone(c: Config, s: Store, id: int)
    requires ValidConfig(c) && StoreInv(c, s) && InTable(c, id) && Owned(c, id) && Probe(c, s.cache, id).None?
    ensures var marked := MarkedAlone(c, Missed(s, id), id);
            StoreInv(c, marked)
            && RunAlone(c, s, id, Start).0 == FilledAlone(c, marked, id, c.table[id])
  {
    var row := c.table[id];
    assert RunAlone(c, s, id, Start) == RunAlone(c, s, id, Look) == RunAlone(c, s, id, Read)
           == RunAlone(c, s, id, Tally(row));
    TallyAlone(c, s, id, row);
    PutAlone(c, MarkedAlone(c, Missed(s, id), id), id, row);
  }

  lemma PutAlone(c: Config, s: Store, id: int, row: Row)
    requires ValidConfig(c) && StoreInv(c, s) && PcInv(c, s, id, Put(row))
    ensures RunAlone(c, s, id, Put(row)).0 == FilledAlone(c, s, id, row)
  {
    StepKeepsInv(c, s, id, Put(row));
    var (s', p') := ServeStep(c, s, id, Put(row));
    assert RunAlone(c, s', id, p').0 == s';
  }

  lemma HitAlone(c: Config, s: Store, id: int)
    requires ValidConfig(c) && StoreInv(c, s) && InTable(c, id) && Owned(c, id) && Probe(c, s.cache, id).Some?
    ensures RunAlone(c, s, id, Start).0 == s.(hits := s.hits + 1)
  {
    HitIsExact(c, s.cache, id);
    var s' := s.(hits := s.hits + 1);
    assert RunAlone(c, s', id, Emit(c.table[id])).0 == s';
    assert RunAlone(c, s, id, Start) == RunAlone(c, s, id, Look) == RunAlone(c, s', id, Emit(c.table[id]));
  }

  /** The serial fetch is what the pool's steps amount to when one thread runs undisturbed. */
  lemma AloneIsFetch(c: Config, s: Store, id: int)
    requires ValidConfig(c) && StoreInv(c, s) && InTable(c, id)
    ensures RunAlone(c, s, id, Start).0 == if Owned(c, id) then FetchAlone(c, s, id) else s
    ensures RunAlone(c, s, id, Start).1 == Wanted(c, id)
  {
    if Owned(c, id) {
      if Probe(c, s.cache, id).None? {
        MissAlone(c, s, id);
        FetchMiss(c, s, id);
      } else {
        HitAlone(c, s, id);
        FetchHit(c, s, id);
      }
    }
  }
}
