/**
 The two-table agreement invariant of the interrupt machine and its preservation by
 every step (kernel/src/device/interrupt.rs:228-368, 597-713, 950-1211).
 */
module InterruptInvariant {
  import opened Wrappers
  import opened InterruptPlatform
  import opened InterruptState
  import opened InterruptAuthority
  import opened InterruptMachine

  predicate Holds(s: State, b: Binding, state: SourceState) { ExactIn(s.domain, s.sources, b, state) }

  /** The result that carries this object's release has been handed out. */
  ghost predicate InReady(s: State, o: ObjectId) {
    exists k :: 0 <= k < |s.ready| && s.ready[k].release.id == o
  }

  ghost predicate InRefused(s: State, o: ObjectId) {
    exists k :: 0 <= k < |s.refused| && s.refused[k].id == o
  }

  /** A creation in flight owns a reserved source, and a record once it is bound. */
  ghost predicate CreationOk(s: State, o: ObjectId)
    requires o in s.parents
  {
    o in s.creations ==>
      var c := s.creations[o];
      && c.parent == s.parents[o] && Holds(s, c.binding, SrcReserved)
      && o !in s.minted && o !in s.acks && o !in s.finals && o !in s.gone
      && (c.stage == AtReserved <==> o !in s.records)
      && (c.stage == AtBound ==> s.records[o] == Fresh(o, c.binding, c.parent))
      && (c.stage == AtTyped ==> s.records[o] == Fresh(o, c.binding, c.parent).(state := Armed))
  }

  /** A published live record and its source say the same thing. */
  ghost predicate Agree(s: State, o: ObjectId)
    requires o in s.records
  {
    var r := s.records[o];
    if FinalAt(s, o, Quarantined) then Holds(s, r.binding, SrcMasked)
    else (r.state.Armed? ==> Holds(s, r.binding, SrcArmed)) && (Signaled(r.state) ==> Holds(s, r.binding, SrcMasked))
  }

  ghost predicate LiveOk(s: State, o: ObjectId)
    requires o in s.records
  {
    var r := s.records[o];
    && r.pendingRelease.None? && !r.retrying && o !in s.gone && (o in s.minted <==> o in s.finals)
    && (r.state.AckPrepared? <==> o in s.acks) && (o !in s.creations ==> Agree(s, o))
  }

  ghost predicate FinalizingOk(s: State, o: ObjectId)
    requires o in s.records
  {
    var r := s.records[o];
    && o in s.minted && o !in s.creations && o !in s.acks
    && (o in s.finals <==> r.pendingRelease.None?) && (r.pendingRelease.Some? ==> r.pendingRelease == Some(FinalRelease(o)))
    && (o in s.finals ==> !r.retrying)
    && (o !in s.gone ==> Holds(s, r.binding, SrcMasked))
    && (o in s.gone ==> FinalAt(s, o, Retired(true)) || r.retrying)
  }

  ghost predicate RecordOk(s: State, o: ObjectId)
    requires o in s.parents
  {
    o in s.records ==>
      var r := s.records[o];
      && r.id == o && r.parent == s.parents[o] && r.binding.domain == s.domain
      && (r.state.Creating? ==> o in s.creations && !r.retrying)
      && (Live(r.state) ==> LiveOk(s, o))
      && (r.state.Finalizing? ==> FinalizingOk(s, o))
  }

  ghost predicate FinalOk(s: State, o: ObjectId) {
    o in s.finals ==>
      && o in s.records && o in s.minted && s.finals[o].binding == s.records[o].binding
      && (s.finals[o].stage in {LookedUp, Quarantined} <==> Live(s.records[o].state))
      && (s.finals[o].stage in {Marked, Retired(false), Retired(true)} <==> s.records[o].state.Finalizing?)
      && (o in s.gone <==> s.finals[o].stage == Retired(true))
  }

  /** An attempt, with its parent pin and later its release, is in exactly one place. */
  ghost predicate PlaceOk(s: State, o: ObjectId) {
    && (o in s.records || CreatingAt(s, o, AtReserved) || InReady(s, o) || InRefused(s, o))
    && (InReady(s, o) ==> o !in s.records && o !in s.creations && o in s.minted && !InRefused(s, o))
    && (InRefused(s, o) ==> o !in s.records && o !in s.creations && o !in s.minted)
    && (o in s.acks ==> o in s.records && s.records[o].state.AckPrepared? && o !in s.minted)
    && (o in s.minted ==> o in s.records || InReady(s, o))
    && (o in s.gone ==> o in s.minted)
  }

  ghost predicate ObjOk(s: State, o: ObjectId)
    requires o in s.parents
  {
    CreationOk(s, o) && RecordOk(s, o) && FinalOk(s, o) && PlaceOk(s, o)
  }

  ghost predicate Closed(s: State) {
    && s.records.Keys <= s.parents.Keys && s.creations.Keys <= s.parents.Keys && s.finals.Keys <= s.parents.Keys
    && s.acks <= s.parents.Keys && s.minted <= s.parents.Keys && s.gone <= s.parents.Keys
  }

  ghost predicate AllOk(s: State) {
    Closed(s) && forall o :: o in s.parents ==> ObjOk(s, o)
  }

  /** The object that a bound source belongs to still uses it. */
  predicate Uses(s: State, o: ObjectId, source: nat) {
    || (CreatingAt(s, o, AtReserved) && s.creations[o].binding.source == source)
    || (o in s.records && o !in s.gone && s.records[o].binding.source == source)
  }

  ghost predicate SourcesApart(s: State) {
    && OneRecordPerSource(s.records)
    && forall o, q, source :: Uses(s, o, source) && Uses(s, q, source) ==> o == q
  }

  ghost predicate RetryOk(s: State, w: Worker)
    requires w in s.retries
  {
    var r := s.retries[w];
    && r.id in s.records && s.records[r.id].binding == r.binding && s.records[r.id].retrying
    && s.records[r.id].state.Finalizing? && s.records[r.id].pendingRelease.Some?
    && (r.answer == Some(true) <==> r.id in s.gone)
  }

  /** At most one retry works on a record, and the record says so. */
  ghost predicate RetriesOk(s: State) {
    && (forall w :: w in s.retries ==> RetryOk(s, w))
    && (forall w, v :: w in s.retries && v in s.retries && s.retries[w].id == s.retries[v].id ==> w == v)
    && (forall o :: o in s.records && s.records[o].retrying ==> exists w :: w in s.retries && s.retries[w].id == o)
  }

  /** Results and refusals carry the pin that came in, once each. */
  ghost predicate ResultsOk(s: State) {
    && (forall k :: 0 <= k < |s.ready| ==> s.ready[k].release.id in s.parents && s.ready[k].parent == s.parents[s.ready[k].release.id])
    && (forall k :: 0 <= k < |s.refused| ==> s.refused[k].id in s.parents && s.refused[k].parent == s.parents[s.refused[k].id])
    && (forall i, j :: 0 <= i < j < |s.ready| ==> s.ready[i].release.id != s.ready[j].release.id)
    && (forall i, j :: 0 <= i < j < |s.refused| ==> s.refused[i].id != s.refused[j].id)
    && (forall o, q :: o in s.parents && q in s.parents && s.parents[o] == s.parents[q] ==> o == q)
  }

  ghost predicate Inv(s: State) {
    AllOk(s) && SourcesApart(s) && RetriesOk(s) && ResultsOk(s)
  }

  lemma InitialInv(s: State)
    requires Initial(s)
    ensures Inv(s)
  {
  }

  // ----- Frames -----

  predicate SameSource(s: State, s': State, source: nat) {
    && (source in s.sources <==> source in s'.sources)
    && (source in s.sources ==> s.sources[source] == s'.sources[source])
  }

  /** Nothing recorded about object `u` differs between the two states. */
  ghost predicate SameObject(s: State, s': State, u: ObjectId)
    requires u in s.parents
  {
    && s'.domain == s.domain && u in s'.parents && s'.parents[u] == s.parents[u]
    && (u in s.records <==> u in s'.records) && (u in s.records ==> s'.records[u] == s.records[u])
    && (u in s.creations <==> u in s'.creations) && (u in s.creations ==> s'.creations[u] == s.creations[u])
    && (u in s.finals <==> u in s'.finals) && (u in s.finals ==> s'.finals[u] == s.finals[u])
    && (u in s.acks <==> u in s'.acks) && (u in s.minted <==> u in s'.minted) && (u in s.gone <==> u in s'.gone)
    && (InReady(s, u) <==> InReady(s', u)) && (InRefused(s, u) <==> InRefused(s', u))
    && (u in s.records && u !in s.gone ==> SameSource(s, s', s.records[u].binding.source))
    && (u in s.creations ==> SameSource(s, s', s.creations[u].binding.source))
  }

  lemma KeepOk(s: State, s': State, u: ObjectId)
    requires u in s.parents && ObjOk(s, u) && SameObject(s, s', u)
    ensures ObjOk(s', u)
  {
    hide InReady, InRefused;
  }

  /** Only object `t` and source `source` may differ between the two states. */
  ghost predicate Touches(s: State, s': State, t: ObjectId, source: nat) {
    && s'.domain == s.domain && t in s'.parents && s'.parents == s.parents[t := s'.parents[t]]
    && s'.sources - {source} == s.sources - {source}
    && s'.records - {t} == s.records - {t} && s'.creations - {t} == s.creations - {t} && s'.finals - {t} == s.finals - {t}
    && s'.acks - {t} == s.acks - {t} && s'.minted - {t} == s.minted - {t} && s'.gone - {t} == s.gone - {t}
    && (s'.ready == s.ready || (|s'.ready| > 0 && s.ready == s'.ready[..|s'.ready| - 1] && s'.ready[|s'.ready| - 1].release.id == t))
    && (s'.refused == s.refused || (|s'.refused| > 0 && s.refused == s'.refused[..|s'.refused| - 1] && s'.refused[|s'.refused| - 1].id == t))
  }

  lemma MapSame<K, V>(m: map<K, V>, m': map<K, V>, t: K, u: K)
    requires m' - {t} == m - {t} && u != t
    ensures u in m <==> u in m'
    ensures u in m ==> m[u] == m'[u]
  {
    assert u in m ==> u in m - {t};
    assert u in m' ==> u in m' - {t};
  }

  lemma TouchesKeepsResults(s: State, s': State, t: ObjectId, source: nat, u: ObjectId)
    requires Touches(s, s', t, source) && u != t
    ensures (InReady(s, u) <==> InReady(s', u)) && (InRefused(s, u) <==> InRefused(s', u))
  {
    if InReady(s, u) {
      var k :| 0 <= k < |s.ready| && s.ready[k].release.id == u;
      assert s'.ready[k].release.id == u;
    }
    if InReady(s', u) {
      var k :| 0 <= k < |s'.ready| && s'.ready[k].release.id == u;
      assert s.ready[k].release.id == u;
    }
    if InRefused(s, u) {
      var k :| 0 <= k < |s.refused| && s.refused[k].id == u;
      assert s'.refused[k].id == u;
    }
    if InRefused(s', u) {
      var k :| 0 <= k < |s'.refused| && s'.refused[k].id == u;
      assert s.refused[k].id == u;
    }
  }

  lemma TouchesKeeps(s: State, s': State, t: ObjectId, source: nat, u: ObjectId)
    requires Touches(s, s', t, source) && u != t && u in s.parents
    requires ObjOk(s, u) && (s'.sources == s.sources || !Uses(s, u, source))
    ensures SameObject(s, s', u)
  {
    hide InReady, InRefused, LiveOk, FinalizingOk, FinalOk, PlaceOk;
    TouchesKeepsResults(s, s', t, source, u);
    MapSame(s.records, s'.records, t, u);
    MapSame(s.creations, s'.creations, t, u);
    MapSame(s.finals, s'.finals, t, u);
    assert (u in s.acks <==> u in s.acks - {t}) && (u in s'.acks <==> u in s'.acks - {t});
    assert (u in s.minted <==> u in s.minted - {t}) && (u in s'.minted <==> u in s'.minted - {t});
    assert (u in s.gone <==> u in s.gone - {t}) && (u in s'.gone <==> u in s'.gone - {t});
    if s'.sources != s.sources {
      if u in s.records && u !in s.gone { MapSame(s.sources, s'.sources, source, s.records[u].binding.source); }
      if u in s.creations { MapSame(s.sources, s'.sources, source, s.creations[u].binding.source); }
    }
  }

  lemma TouchesClosed(s: State, s': State, t: ObjectId, source: nat)
    requires Touches(s, s', t, source) && Closed(s)
    ensures Closed(s')
  {
    assert s'.records.Keys <= (s'.records - {t}).Keys + {t};
    assert s'.creations.Keys <= (s'.creations - {t}).Keys + {t};
    assert s'.finals.Keys <= (s'.finals - {t}).Keys + {t};
    assert s'.acks <= (s'.acks - {t}) + {t} && s'.minted <= (s'.minted - {t}) + {t} && s'.gone <= (s'.gone - {t}) + {t};
  }

  /** The step leaves the platform alone, or touches a source nobody else uses. */
  ghost predicate FreeFor(s: State, s': State, t: ObjectId, source: nat) {
    s'.sources == s.sources || forall u :: u in s.parents && u != t ==> !Uses(s, u, source)
  }

  /** A step on one object, and on a source nobody else uses, keeps every other object sound. */
  lemma OthersOk(s: State, s': State, t: ObjectId, source: nat)
    requires AllOk(s) && Touches(s, s', t, source) && ObjOk(s', t)
    requires FreeFor(s, s', t, source)
    ensures AllOk(s')
  {
    hide ObjOk, SameObject, Uses, Closed;
    TouchesClosed(s, s', t, source);
    forall u | u in s'.parents ensures ObjOk(s', u) {
      if u != t {
        TouchesKeeps(s, s', t, source, u);
        KeepOk(s, s', u);
      }
    }
  }
}
