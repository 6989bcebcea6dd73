/**
 * The idle sweep over the session's knowledge-base registry: every entry
 * unused for more than `MaxIdle` seconds at time `now` is deleted in place.
 * The clock read is the parameter `now`.
 */
module KbManager {

  /** `MAX_IDLE = 30 * 60`, in seconds. */
  const MaxIdle: real := 1800.0

  /** A registry entry: when it was last used and the description of its source. */
  datatype KbEntry = KbEntry(lastUsed: real, source: string)

  /** The deletion test of the sweep: strictly more than `MaxIdle` seconds idle. */
  predicate IsIdle(e: KbEntry, now: real)
  {
    now - e.lastUsed > MaxIdle
  }

  /** The registry after a sweep at time `now`. */
  function Swept(kbs: map<string, KbEntry>, now: real): (r: map<string, KbEntry>)
    ensures r.Keys <= kbs.Keys
    ensures forall id :: id in r ==> r[id] == kbs[id]
  {
    map id | id in kbs && !IsIdle(kbs[id], now) :: kbs[id]
  }

  /**
   * An entry survives exactly when it was used within `MaxIdle` seconds of
   * `now`, an entry idle for exactly `MaxIdle` seconds included; survivors
   * keep their value and nothing is added.
   */
  lemma SweptSpec(kbs: map<string, KbEntry>, now: real, id: string)
    ensures id in Swept(kbs, now) <==> id in kbs && now - kbs[id].lastUsed <= MaxIdle
    ensures id in kbs && now - kbs[id].lastUsed == MaxIdle ==> id in Swept(kbs, now)
    ensures id in Swept(kbs, now) ==> Swept(kbs, now)[id] == kbs[id]
  {
  }

  /**
   * A later sweep removes everything an earlier one did: sweeping at `t1`
   * and then at `t2 >= t1` is the same as sweeping once at `t2`; with
   * `t1 == t2` the sweep is idempotent.
   */
  lemma SweepThenSweep(kbs: map<string, KbEntry>, t1: real, t2: real)
    requires t1 <= t2
    ensures Swept(Swept(kbs, t1), t2) == Swept(kbs, t2)
  {
    var once := Swept(kbs, t2);
    var twice := Swept(Swept(kbs, t1), t2);
    forall id | id in kbs && !IsIdle(kbs[id], t2)
      ensures id in Swept(kbs, t1)
    {
      assert !IsIdle(kbs[id], t1);
    }
    assert twice.Keys == once.Keys;
  }

  /** The registry `st.session_state.knowledge_bases`, keyed by knowledge-base id. */
  class KnowledgeBases {
    var kbs: map<string, KbEntry>

    constructor ()
      ensures kbs == map[]
    {
      kbs := map[];
    }

    /** Registers a freshly built knowledge base under `id`. */
    method Add(id: string, entry: KbEntry)
      modifies this
      ensures kbs == old(kbs)[id := entry]
    {
      kbs := kbs[id := entry];
    }

    /**
     * `cleanup_kbs`: walks a snapshot of the ids, reads one `now` for all of
     * them, and deletes each idle entry from the registry itself.
     */
    method CleanupKbs(now: real)
      modifies this
      ensures kbs == Swept(old(kbs), now)
    {
      var pending := kbs.Keys;
      while pending != {}
        invariant pending <= old(kbs).Keys
        invariant forall id :: id in kbs <==>
          id in old(kbs) && (id in pending || !IsIdle(old(kbs)[id], now))
        invariant forall id :: id in kbs ==> kbs[id] == old(kbs)[id]
        decreases pending
      {
        var id :| id in pending;
        if IsIdle(kbs[id], now) {
          kbs := kbs - {id};
        }
        pending := pending - {id};
      }
      assert kbs.Keys == Swept(old(kbs), now).Keys;
    }
  }
}
