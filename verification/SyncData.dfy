/** The counters and timestamps of a subscription, in the database and in a cache. */
module SyncData {
  import opened Text

  type Id = string

  /** A document of the csubs collection; a timestamp field may be missing. */
  datatype Doc = Doc(count: nat, lastNotification: Option<real>, lastFailure: Option<real>, lastSuccess: Option<real>)

  /** A cached subscription, or what is saved of it during a synchronisation. */
  datatype Cached = Cached(count: nat, lastNotification: real, lastFailure: real, lastSuccess: real)

  function Read(t: Option<real>): real {
    match t case None => -1.0 case Some(v) => v
  }

  /** mongoSubCacheItemInsert: missing timestamps are -1 and the count is 0. */
  function Load(d: Doc): Cached {
    Cached(0, Read(d.lastNotification), Read(d.lastFailure), Read(d.lastSuccess))
  }

  /** One conditional update: `$set` where the field is smaller or does not exist, and only for positive values. */
  function Raise(t: Option<real>, v: real): Option<real> {
    if v > 0.0 && (t.None? || t.value < v) then Some(v) else t
  }

  /** mongoSubCountersUpdate on the document it finds. */
  function CountersUpdate(d: Doc, s: Cached): Doc {
    Doc(if s.count > 0 then d.count + s.count else d.count,
        Raise(d.lastNotification, s.lastNotification),
        Raise(d.lastFailure, s.lastFailure),
        Raise(d.lastSuccess, s.lastSuccess))
  }

  /** Step 3 of subCacheSync: saved timestamps older than the ones just loaded are set to 0. */
  function ClearOld(s: Cached, loaded: Cached): Cached {
    Cached(s.count,
           if s.lastNotification <= loaded.lastNotification then 0.0 else s.lastNotification,
           if s.lastFailure < loaded.lastFailure then 0.0 else s.lastFailure,
           if s.lastSuccess < loaded.lastSuccess then 0.0 else s.lastSuccess)
  }

  /** The later of a database timestamp and a cached one that is set. */
  function Later(t: Option<real>, v: real): Option<real> {
    if v <= 0.0 then t else if t.None? || t.value < v then Some(v) else t
  }

  /** `t` has reached `v`: nothing older than a set `v` is left. */
  predicate Reached(t: Option<real>, v: real) {
    v > 0.0 ==> t.Some? && t.value >= v
  }

  predicate NotBefore(t: Option<real>, t': Option<real>) {
    t.Some? ==> t'.Some? && t'.value >= t.value
  }

  /** An undisturbed synchronisation of one subscription adds the cached count and leaves every timestamp at
      the later of the two values. */
  lemma SyncIsMax(d: Doc, s: Cached)
    ensures CountersUpdate(d, ClearOld(s, Load(d)))
         == Doc(d.count + s.count, Later(d.lastNotification, s.lastNotification),
                Later(d.lastFailure, s.lastFailure), Later(d.lastSuccess, s.lastSuccess))
  {
  }
}
