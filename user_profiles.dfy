/**
 * The profile-name cache (lib/useUserProfiles.ts): uid to display name,
 * filled from the `users/{uid}` documents, and the lookup with fallback.
 *
 * The document reads are an oracle: a map from uid to what `getDoc`
 * gives for it (a profile, no document, or an error); a uid the map
 * does not mention has no document.
 */
module UserProfiles {
  import opened Wrappers

  /** The fields of a `users/{uid}` document that are read here. */
  datatype UserProfile = UserProfile(uid: string, displayName: Option<string>, email: Option<string>)

  /** The outcome of one `getDoc(doc(db, 'users', uid))`. */
  datatype FetchOutcome = Found(profile: UserProfile) | NotFound | FetchError

  type Oracle = map<string, FetchOutcome>

  /** The cache: uid to display name. */
  type Profiles = map<string, string>

  function Fetch(oracle: Oracle, uid: string): (o: FetchOutcome)
    ensures uid !in oracle ==> o == NotFound
    ensures uid in oracle ==> o == oracle[uid]
  {
    if uid in oracle then oracle[uid] else NotFound
  }

  /** `newProfiles[uid]` is truthy: the uid has a non-empty cached name and is skipped. */
  predicate IsCached(profiles: Profiles, uid: string): (cached: bool)
    ensures uid !in profiles ==> !cached
    ensures uid in profiles ==> (cached <==> profiles[uid] != "")
  {
    uid in profiles && profiles[uid] != ""
  }

  /**
   * The name recorded for a uid after its fetch: `displayName || email || uid`
   * for a found profile, the uid itself when there is no document or the read fails.
   */
  function ProfileName(uid: string, outcome: FetchOutcome): (name: string)
    ensures uid != "" ==> name != ""
    ensures name == uid || (outcome.Found? && (Some(name) == outcome.profile.displayName || Some(name) == outcome.profile.email))
    ensures outcome.Found? && Truthy(outcome.profile.displayName) ==> name == outcome.profile.displayName.value
    ensures outcome.Found? && !Truthy(outcome.profile.displayName) && Truthy(outcome.profile.email) ==>
              name == outcome.profile.email.value
    ensures !outcome.Found? ==> name == uid
  {
    match outcome
    case Found(p) =>
      if Truthy(p.displayName) then p.displayName.value
      else if Truthy(p.email) then p.email.value
      else uid
    case _ => uid
  }

  /**
   * The loop of `fetchProfiles`: start from a copy of the cache and give
   * every requested uid that has no non-empty cached name the name its fetch yields.
   */
  method FillProfiles(cache: Profiles, uids: seq<string>, oracle: Oracle) returns (filled: Profiles)
    ensures forall u :: u in filled <==> u in cache || u in uids
    ensures forall u :: IsCached(cache, u) ==> filled[u] == cache[u]
    ensures forall u :: u in cache && u !in uids ==> filled[u] == cache[u]
    ensures forall u :: u in uids && !IsCached(cache, u) ==> filled[u] == ProfileName(u, Fetch(oracle, u))
    ensures forall u :: u in uids && u != "" ==> IsCached(filled, u)
  {
    filled := cache;
    for i := 0 to |uids|
      invariant forall u :: u in filled <==> u in cache || u in uids[..i]
      invariant forall u :: IsCached(cache, u) ==> filled[u] == cache[u]
      invariant forall u :: u in cache && u !in uids[..i] ==> filled[u] == cache[u]
      invariant forall u :: u in uids[..i] && !IsCached(cache, u) ==> filled[u] == ProfileName(u, Fetch(oracle, u))
    {
      var uid := uids[i];
      assert uids[..i + 1] == uids[..i] + [uid];
      if uid in filled && filled[uid] != "" {
        continue;
      }
      var outcome := Fetch(oracle, uid);
      match outcome {
        case Found(data) =>
          filled := filled[uid := if Truthy(data.displayName) then data.displayName.value
                                  else if Truthy(data.email) then data.email.value
                                  else uid];
        case NotFound =>
          filled := filled[uid := uid];
        case FetchError =>
          filled := filled[uid := uid];
      }
    }
    assert uids[..|uids|] == uids;
  }

  /**
   * The effect of `useUserProfiles`: nothing at all for an empty uid list,
   * otherwise the new cache that `setProfiles` receives.
   */
  method RefreshProfiles(profiles: Profiles, uids: seq<string>, oracle: Oracle) returns (update: Option<Profiles>)
    ensures update.None? <==> uids == []
    ensures update.Some? ==> forall u :: u in update.value <==> u in profiles || u in uids
    ensures update.Some? ==> forall u :: IsCached(profiles, u) ==> update.value[u] == profiles[u]
    ensures update.Some? ==> forall u :: u in profiles && u !in uids ==> update.value[u] == profiles[u]
    ensures update.Some? ==> forall u :: u in uids && !IsCached(profiles, u) ==>
              update.value[u] == ProfileName(u, Fetch(oracle, u))
    ensures update.Some? ==> forall u :: u in uids && u != "" ==> IsCached(update.value, u)
  {
    if |uids| == 0 {
      return None;
    }
    var filled := FillProfiles(profiles, uids, oracle);
    return Some(filled);
  }

  /** `getDisplayName(uid, profiles)`: the cached name when there is a non-empty one, else the uid. */
  function DisplayName(uid: string, profiles: Profiles): (name: string)
    ensures IsCached(profiles, uid) ==> name == profiles[uid]
    ensures !IsCached(profiles, uid) ==> name == uid
    ensures uid != "" ==> name != ""
  {
    if uid in profiles && profiles[uid] != "" then profiles[uid] else uid
  }
}
