/** The verifier's cache of public keys: when it asks the key server again, and what it answers with. */
module KeyCache {
  import opened Wrappers
  import opened Tables

  const COOLDOWN := 10.0
  const KID_MAX := 128

  /** An entry of the fetched list. `kid` is absent when it is no text, `pem` when the key does not parse. */
  datatype Jwk = NotObject | Jwk(kid: Option<string>, pem: Option<string>)

  /** The fetch fails, or its document is not an object with a list of keys, or it is one. */
  datatype Response = Failed | Malformed | Keys(jwks: seq<Jwk>)

  datatype Cache = Cache(keys: Table<string, string>, fetchedAt: real, unknownAt: real)

  const EMPTY := Cache(Table(map[], []), 0.0, 0.0)

  predicate Usable(jwk: Jwk) {
    jwk.Jwk? && jwk.kid.Some? && jwk.kid.value != "" && |jwk.kid.value| <= KID_MAX && jwk.pem.Some?
  }

  /** The entries that are taken over, in order. */
  function Pairs(jwks: seq<Jwk>): seq<(string, string)> {
    if jwks == [] then []
    else
      var last := jwks[|jwks| - 1];
      Pairs(jwks[..|jwks| - 1]) + if Usable(last) then [(last.kid.value, last.pem.value)] else []
  }

  function KeysOf(jwks: seq<Jwk>): Table<string, string> {
    Fill(Pairs(jwks), |Pairs(jwks)|)
  }

  /** The request for a key, with what the server would say and when the fetch would be over. */
  datatype Request = Request(kid: Option<string>, now: real, response: Response, over: real)

  predicate Stale(c: Cache, ttl: real, now: real) {
    now - c.fetchedAt > ttl
  }

  predicate UnknownKid(c: Cache, kid: Option<string>) {
    kid.Some? && kid.value !in c.keys.rows
  }

  predicate Fetches(c: Cache, ttl: real, r: Request) {
    Stale(c, ttl, r.now) || (UnknownKid(c, r.kid) && r.now - c.unknownAt > COOLDOWN)
  }

  function Fetched(c: Cache, r: Request): Cache {
    if r.response.Keys? then c.(keys := KeysOf(r.response.jwks), fetchedAt := r.over) else c
  }

  function After(c: Cache, ttl: real, r: Request): Cache {
    if !Fetches(c, ttl, r) then c
    else if UnknownKid(c, r.kid) then Fetched(c, r).(unknownAt := r.now)
    else Fetched(c, r)
  }

  function Answer(c: Cache, kid: Option<string>): Option<string> {
    match kid
    case Some(k) => if k in c.keys.rows then Some(c.keys.rows[k]) else None
    case None => if c.keys.order != [] && c.keys.order[0] in c.keys.rows then Some(c.keys.rows[c.keys.order[0]]) else None
  }

  // ----------------------------------------------------------------- history

  /** A fetch: when, whether the cache was stale, whether the identifier was unknown, whether a
      document came of it, and when it was over. */
  datatype Fetch = Fetch(at: real, stale: bool, unknown: bool, good: bool, over: real)

  /** The cache, the fetches so far and the last good document. */
  datatype History = History(cache: Cache, fetches: seq<Fetch>, document: seq<Jwk>)

  function Serve(h: History, ttl: real, r: Request): History {
    var c := h.cache;
    if !Fetches(c, ttl, r) then h
    else History(
      After(c, ttl, r),
      h.fetches + [Fetch(r.now, Stale(c, ttl, r.now), UnknownKid(c, r.kid), r.response.Keys?, r.over)],
      if r.response.Keys? then r.response.jwks else h.document)
  }

  function ServeAll(ttl: real, reqs: seq<Request>): History {
    if reqs == [] then History(EMPTY, [], [])
    else Serve(ServeAll(ttl, reqs[..|reqs| - 1]), ttl, reqs[|reqs| - 1])
  }

  /** The lock is held over the fetch, so that requests follow one another. */
  ghost predicate InOrder(reqs: seq<Request>) {
    && (forall i | 0 <= i < |reqs| :: reqs[i].now <= reqs[i].over)
    && (forall i, j | 0 <= i < j < |reqs| :: reqs[i].over <= reqs[j].now)
  }

  ghost predicate FetchOk(c: Cache, f: Fetch) {
    (!f.stale ==> f.unknown) && (f.unknown ==> f.at <= c.unknownAt) && (f.good ==> f.at <= c.fetchedAt)
  }

  /** How far apart a fetch is from an earlier one. */
  ghost predicate Apart(ttl: real, earlier: Fetch, later: Fetch) {
    && (!later.stale && earlier.unknown ==> later.at - earlier.at > COOLDOWN)
    && (later.stale && earlier.good ==> later.at - earlier.at > ttl)
  }

  ghost predicate Inv(h: History, ttl: real, last: real) {
    && (forall i | 0 <= i < |h.fetches| :: FetchOk(h.cache, h.fetches[i]) && h.fetches[i].at <= last)
    && (forall i, j | 0 <= i < j < |h.fetches| :: Apart(ttl, h.fetches[i], h.fetches[j]))
    && h.cache.keys == KeysOf(h.document)
  }

  lemma ServeKeeps(h: History, ttl: real, last: real, r: Request)
    requires Inv(h, ttl, last) && last <= r.now <= r.over
    ensures Inv(Serve(h, ttl, r), ttl, r.over)
  {
    var g := Serve(h, ttl, r);
    if Fetches(h.cache, ttl, r) {
      var f := g.fetches[|h.fetches|];
      forall i | 0 <= i < |h.fetches|
        ensures FetchOk(g.cache, g.fetches[i]) && Apart(ttl, g.fetches[i], f)
      {
        assert FetchOk(h.cache, h.fetches[i]);
      }
      forall i, j | 0 <= i < j < |g.fetches|
        ensures Apart(ttl, g.fetches[i], g.fetches[j])
      {
        if j < |h.fetches| {
          assert Apart(ttl, h.fetches[i], h.fetches[j]);
        }
      }
    }
  }

  lemma {:induction false} ServeAllKeeps(ttl: real, reqs: seq<Request>)
    requires InOrder(reqs)
    ensures Inv(ServeAll(ttl, reqs), ttl, if reqs == [] then 0.0 else reqs[|reqs| - 1].over)
  {
    if reqs != [] {
      var n := |reqs| - 1;
      ServeAllKeeps(ttl, reqs[..n]);
      var h := ServeAll(ttl, reqs[..n]);
      ServeKeeps(h, ttl, if n == 0 then reqs[n].now else reqs[n - 1].over, reqs[n]);
    }
  }

  // ---------------------------------------------------------------- theorems

  /** Unknown identifiers alone cause fetches more than the cooldown apart, and good fetches are
      followed by stale ones only after the lifetime. So an interval that is as short as both sees
      three fetches only if the first of them failed. */
  lemma {:induction false} CooldownTheorem(ttl: real, reqs: seq<Request>, i: nat, j: nat, k: nat)
    requires InOrder(reqs)
    requires var fs := ServeAll(ttl, reqs).fetches;
             i < j < k < |fs| && fs[i].good
    ensures var fs := ServeAll(ttl, reqs).fetches;
            fs[k].at - fs[i].at > COOLDOWN || fs[k].at - fs[i].at > ttl
  {
    ServeAllKeeps(ttl, reqs);
    FetchTimes(ttl, reqs);
    var fs := ServeAll(ttl, reqs).fetches;
    assert Apart(ttl, fs[i], fs[j]) && Apart(ttl, fs[j], fs[k]) && Apart(ttl, fs[i], fs[k]);
    assert FetchOk(ServeAll(ttl, reqs).cache, fs[j]) && FetchOk(ServeAll(ttl, reqs).cache, fs[k]);
  }

  /** Whether or not the server answers: a fetch while the cache is fresh lies more than the cooldown
      after any earlier one for an unknown identifier, and fetches while it is fresh are all for
      unknown identifiers. */
  lemma {:induction false} FreshFetchesApart(ttl: real, reqs: seq<Request>, i: nat, j: nat)
    requires InOrder(reqs)
    requires var fs := ServeAll(ttl, reqs).fetches;
             i < j < |fs| && !fs[j].stale
    ensures var fs := ServeAll(ttl, reqs).fetches;
            && (fs[i].unknown ==> fs[j].at - fs[i].at > COOLDOWN)
            && (!fs[i].stale ==> fs[i].unknown)
  {
    ServeAllKeeps(ttl, reqs);
    var fs := ServeAll(ttl, reqs).fetches;
    assert Apart(ttl, fs[i], fs[j]) && FetchOk(ServeAll(ttl, reqs).cache, fs[i]);
  }

  /** In order of time, and none after the last. */
  ghost predicate Ascending(fetches: seq<Fetch>, last: real) {
    && (forall i, j | 0 <= i < j < |fetches| :: fetches[i].at <= fetches[j].at)
    && (forall i | 0 <= i < |fetches| :: fetches[i].at <= last)
  }

  lemma ServeAscends(h: History, ttl: real, r: Request)
    requires Ascending(h.fetches, r.now)
    ensures Ascending(Serve(h, ttl, r).fetches, r.now)
  {
  }

  lemma {:induction false} FetchTimes(ttl: real, reqs: seq<Request>)
    requires InOrder(reqs)
    ensures reqs != [] ==> Ascending(ServeAll(ttl, reqs).fetches, reqs[|reqs| - 1].now)
  {
    if reqs != [] {
      var n := |reqs| - 1;
      FetchTimes(ttl, reqs[..n]);
      if n > 0 {
        assert reqs[n - 1].now <= reqs[n - 1].over <= reqs[n].now;
        assert Ascending(ServeAll(ttl, reqs[..n]).fetches, reqs[n].now);
      }
      ServeAscends(ServeAll(ttl, reqs[..n]), ttl, reqs[n]);
    }
  }

  /** What the cooldown does for the next request, exactly: within it, after a fetch for an unknown
      identifier, the server is asked if and only if the cache is stale. */
  lemma {:induction false} CooldownExact(ttl: real, reqs: seq<Request>, r: Request, i: nat)
    requires InOrder(reqs)
    requires var fs := ServeAll(ttl, reqs).fetches;
             i < |fs| && fs[i].unknown && r.now - fs[i].at <= COOLDOWN
    ensures Fetches(ServeAll(ttl, reqs).cache, ttl, r) <==> Stale(ServeAll(ttl, reqs).cache, ttl, r.now)
  {
    ServeAllKeeps(ttl, reqs);
    assert FetchOk(ServeAll(ttl, reqs).cache, ServeAll(ttl, reqs).fetches[i]);
  }

  /** The cooldown ends where the cache is stale: while the server fails, every request of whatever
      identifier goes to the server, and the keys stay. */
  lemma {:induction false} OutageFetchesEveryTime(h: History, ttl: real, reqs: seq<Request>)
    requires forall i | 0 <= i < |reqs| :: Stale(h.cache, ttl, reqs[i].now) && !reqs[i].response.Keys?
    ensures var g := ServeFrom(h, ttl, reqs);
            && |g.fetches| == |h.fetches| + |reqs|
            && g.cache.keys == h.cache.keys && g.cache.fetchedAt == h.cache.fetchedAt
  {
    if reqs != [] {
      OutageFetchesEveryTime(h, ttl, reqs[..|reqs| - 1]);
    }
  }

  function ServeFrom(h: History, ttl: real, reqs: seq<Request>): History {
    if reqs == [] then h else Serve(ServeFrom(h, ttl, reqs[..|reqs| - 1]), ttl, reqs[|reqs| - 1])
  }

  /** An answer for an identifier is the key of its last usable entry in the last good document,
      and no answer means that it has none there. */
  lemma {:induction false} AnswersFromLastDocument(ttl: real, reqs: seq<Request>, kid: string)
    requires InOrder(reqs)
    ensures var h := ServeAll(ttl, reqs);
            Answer(h.cache, Some(kid)) == LastFor(Pairs(h.document), |Pairs(h.document)|, kid)
  {
    ServeAllKeeps(ttl, reqs);
    var h := ServeAll(ttl, reqs);
    FillLookup(Pairs(h.document), |Pairs(h.document)|, kid);
  }

  // ---------------------------------------------- every fetch and every answer

  /** The entry says what the key of this identifier is. */
  predicate Says(jwks: seq<Jwk>, i: int, kid: string) {
    0 <= i < |jwks| && jwks[i].Jwk? && jwks[i].kid == Some(kid) && 0 < |kid| <= 128 && jwks[i].pem.Some?
  }

  ghost predicate KnownIn(jwks: seq<Jwk>, kid: string) {
    exists i :: Says(jwks, i, kid)
  }

  ghost predicate LastSays(jwks: seq<Jwk>, i: int, kid: string) {
    Says(jwks, i, kid) && forall j | i < j < |jwks| :: !Says(jwks, j, kid)
  }

  lemma {:induction false} KeysTell(jwks: seq<Jwk>, kid: string)
    ensures kid in KeysOf(jwks).rows <==> KnownIn(jwks, kid)
    ensures forall i :: LastSays(jwks, i, kid) ==> kid in KeysOf(jwks).rows && Some(KeysOf(jwks).rows[kid]) == jwks[i].pem
  {
    if jwks == [] {
      assert Pairs(jwks) == [];
    } else {
      var before, last := jwks[..|jwks| - 1], jwks[|jwks| - 1];
      KeysTell(before, kid);
      KeysOfMore(before, last);
      assert before + [last] == jwks;
      if Says(jwks, |before|, kid) {
        assert LastSays(jwks, |before|, kid);
      }
      forall i | i != |before|
        ensures Says(jwks, i, kid) <==> Says(before, i, kid)
        ensures !Says(jwks, |before|, kid) && LastSays(jwks, i, kid) ==> LastSays(before, i, kid)
      {
        assert forall j | 0 <= j < |before| :: Says(jwks, j, kid) <==> Says(before, j, kid);
      }
    }
  }

  /** The first entry that says a key at all. */
  ghost predicate FirstSays(jwks: seq<Jwk>, i: int, kid: string) {
    Says(jwks, i, kid) && forall j, k | 0 <= j < i :: !Says(jwks, j, k)
  }

  lemma SaysMore(before: seq<Jwk>, last: Jwk)
    ensures forall i, kid | i < |before| :: Says(before + [last], i, kid) <==> Says(before, i, kid)
    ensures forall kid :: Says(before + [last], |before|, kid) <==> Usable(last) && last.kid == Some(kid)
    ensures forall kid :: KnownIn(before + [last], kid) <==> KnownIn(before, kid) || (Usable(last) && last.kid == Some(kid))
  {
    var all := before + [last];
    forall i, kid | i < |before|
      ensures Says(all, i, kid) <==> Says(before, i, kid)
    {
    }
    forall kid
      ensures KnownIn(all, kid) <==> KnownIn(before, kid) || (Usable(last) && last.kid == Some(kid))
    {
      if i :| Says(before, i, kid) {
        assert Says(all, i, kid);
      }
      if Usable(last) && last.kid == Some(kid) {
        assert Says(all, |before|, kid);
      }
    }
  }

  lemma {:induction false} FirstTells(jwks: seq<Jwk>)
    ensures KeysOf(jwks).order == [] <==> forall kid :: !KnownIn(jwks, kid)
    ensures forall i, kid :: FirstSays(jwks, i, kid) ==> KeysOf(jwks).order != [] && KeysOf(jwks).order[0] == kid
  {
    if jwks == [] {
      assert Pairs(jwks) == [];
    } else {
      var before, last := jwks[..|jwks| - 1], jwks[|jwks| - 1];
      assert before + [last] == jwks;
      FirstTells(before);
      FirstMore(before, last);
    }
  }

  lemma {:induction false} FirstMore(before: seq<Jwk>, last: Jwk)
    requires KeysOf(before).order == [] <==> forall kid :: !KnownIn(before, kid)
    requires forall i, kid :: FirstSays(before, i, kid) ==> KeysOf(before).order != [] && KeysOf(before).order[0] == kid
    ensures KeysOf(before + [last]).order == [] <==> forall kid :: !KnownIn(before + [last], kid)
    ensures forall i, kid :: FirstSays(before + [last], i, kid) ==> KeysOf(before + [last]).order != [] && KeysOf(before + [last]).order[0] == kid
  {
    var all := before + [last];
    KeysOfMore(before, last);
    SaysMore(before, last);
    FillLookup(Pairs(before), |Pairs(before)|, "");
    if Usable(last) {
      assert KnownIn(all, last.kid.value);
    }
    forall i, kid | FirstSays(all, i, kid)
      ensures KeysOf(all).order != [] && KeysOf(all).order[0] == kid
    {
      if i < |before| {
        assert FirstSays(before, i, kid);
      } else {
        assert forall j, k | 0 <= j < |before| :: !Says(before, j, k);
        assert KeysOf(before).order == [];
      }
    }
  }

  /** When the last fetch for an unknown identifier was, and when the last good one was over. */
  function LastUnknown(fetches: seq<Fetch>): real {
    if fetches == [] then 0.0
    else if fetches[|fetches| - 1].unknown then fetches[|fetches| - 1].at
    else LastUnknown(fetches[..|fetches| - 1])
  }

  function LastGood(fetches: seq<Fetch>): real {
    if fetches == [] then 0.0
    else if fetches[|fetches| - 1].good then fetches[|fetches| - 1].over
    else LastGood(fetches[..|fetches| - 1])
  }

  lemma {:induction false} CacheTells(ttl: real, reqs: seq<Request>)
    ensures var h := ServeAll(ttl, reqs);
            h.cache.unknownAt == LastUnknown(h.fetches) && h.cache.fetchedAt == LastGood(h.fetches) && h.cache.keys == KeysOf(h.document)
  {
    if reqs != [] {
      var r, g := reqs[|reqs| - 1], ServeAll(ttl, reqs[..|reqs| - 1]);
      CacheTells(ttl, reqs[..|reqs| - 1]);
      if Fetches(g.cache, ttl, r) {
        var h := ServeAll(ttl, reqs);
        assert h.fetches[..|h.fetches| - 1] == g.fetches;
      }
    }
  }

  /** Exactly when a request goes to the server: when the lifetime of the last good document is over,
      or when its identifier is unknown to that document and the last fetch for such a one is more
      than ten seconds ago. */
  lemma FetchTells(ttl: real, reqs: seq<Request>, r: Request)
    ensures var h, g := ServeAll(ttl, reqs), ServeAll(ttl, reqs + [r]);
            var unknown := r.kid.Some? && !KnownIn(h.document, r.kid.value);
            if r.now - LastGood(h.fetches) > ttl || (unknown && r.now - LastUnknown(h.fetches) > 10.0)
            then
              && |g.fetches| == |h.fetches| + 1 && g.fetches[..|h.fetches|] == h.fetches
              && g.fetches[|h.fetches|].at == r.now && g.fetches[|h.fetches|].over == r.over
              && (g.fetches[|h.fetches|].unknown <==> unknown) && (g.fetches[|h.fetches|].good <==> r.response.Keys?)
              && g.document == (if r.response.Keys? then r.response.jwks else h.document)
            else g == h
  {
    assert (reqs + [r])[..|reqs + [r]| - 1] == reqs;
    CacheTells(ttl, reqs);
    if r.kid.Some? {
      KeysTell(ServeAll(ttl, reqs).document, r.kid.value);
    }
  }

  /** Every answer, from the last good document: the key of the last entry for the identifier; without an
      identifier, the key of the one that is named first. */
  lemma AnswerTells(ttl: real, reqs: seq<Request>)
    ensures var h := ServeAll(ttl, reqs);
            && (forall kid :: Answer(h.cache, Some(kid)) == None <==> !KnownIn(h.document, kid))
            && (forall kid, i :: LastSays(h.document, i, kid) ==> Answer(h.cache, Some(kid)) == h.document[i].pem)
            && (Answer(h.cache, None) == None <==> forall kid :: !KnownIn(h.document, kid))
            && (forall kid, i :: FirstSays(h.document, i, kid) ==> Answer(h.cache, None) == Answer(h.cache, Some(kid)))
  {
    var h := ServeAll(ttl, reqs);
    CacheTells(ttl, reqs);
    FirstTells(h.document);
    forall kid
      ensures kid in h.cache.keys.rows <==> KnownIn(h.document, kid)
      ensures forall i :: LastSays(h.document, i, kid) ==> Answer(h.cache, Some(kid)) == h.document[i].pem
    {
      KeysTell(h.document, kid);
    }
    FillLookup(Pairs(h.document), |Pairs(h.document)|, "");
    if h.cache.keys.order != [] {
      assert h.cache.keys.order[0] in h.cache.keys.order;
      assert h.cache.keys.order[0] in h.cache.keys.rows;
      assert KnownIn(h.document, h.cache.keys.order[0]);
    }
    forall kid, i | FirstSays(h.document, i, kid)
      ensures Answer(h.cache, None) == Answer(h.cache, Some(kid))
    {
      assert KnownIn(h.document, kid);
    }
  }

  // -------------------------------------------------------------- the object

  lemma {:induction false} FillPrefix(a: seq<(string, string)>, b: seq<(string, string)>, n: nat)
    requires n <= |a| && n <= |b| && a[..n] == b[..n]
    ensures Fill(a, n) == Fill(b, n)
  {
    if n > 0 {
      assert a[n - 1] == a[..n][n - 1] == b[n - 1];
      assert a[..n - 1] == a[..n][..n - 1] == b[..n - 1];
      FillPrefix(a, b, n - 1);
    }
  }

  lemma KeysOfMore(jwks: seq<Jwk>, jwk: Jwk)
    ensures KeysOf(jwks + [jwk]) == if Usable(jwk) then KeysOf(jwks).Put(jwk.kid.value, jwk.pem.value) else KeysOf(jwks)
  {
    assert (jwks + [jwk])[..|jwks|] == jwks;
    if Usable(jwk) {
      var pairs, more := Pairs(jwks), Pairs(jwks + [jwk]);
      assert more == pairs + [(jwk.kid.value, jwk.pem.value)];
      assert more[..|pairs|] == pairs[..|pairs|];
      FillPrefix(pairs, more, |pairs|);
    } else {
      assert Pairs(jwks + [jwk]) == Pairs(jwks);
    }
  }

  class KeyStore {
    const ttl: real
    var keys: Table<string, string>
    var fetchedAt: real
    var unknownAt: real

    ghost function Contents(): Cache
      reads this
    {
      Cache(keys, fetchedAt, unknownAt)
    }

    constructor (ttl: real)
      ensures this.ttl == ttl && Contents() == EMPTY
    {
      this.ttl := ttl;
      keys, fetchedAt, unknownAt := Table(map[], []), 0.0, 0.0;
    }

    /** Whatever goes wrong, the old keys stay. */
    method FetchJwks(response: Response, over: real)
      modifies `keys, `fetchedAt
      ensures response.Keys? ==> keys == KeysOf(response.jwks) && fetchedAt == over
      ensures !response.Keys? ==> keys == old(keys) && fetchedAt == old(fetchedAt)
    {
      if !response.Keys? {
        return;
      }
      var newKeys: Table<string, string> := Table(map[], []);
      for i := 0 to |response.jwks|
        invariant newKeys == KeysOf(response.jwks[..i])
      {
        var jwk := response.jwks[i];
        KeysOfMore(response.jwks[..i], jwk);
        assert response.jwks[..i] + [jwk] == response.jwks[..i + 1];
        if jwk.Jwk? && jwk.kid.Some? && jwk.kid.value != "" && |jwk.kid.value| <= KID_MAX {
          if jwk.pem.Some? {
            newKeys := newKeys.Put(jwk.kid.value, jwk.pem.value);
          }
        }
      }
      assert response.jwks[..|response.jwks|] == response.jwks;
      keys := newKeys;
      fetchedAt := over;
    }

    method ResolveKey(r: Request) returns (pem: Option<string>)
      modifies `keys, `fetchedAt, `unknownAt
      ensures Contents() == After(old(Contents()), ttl, r)
      ensures pem == Answer(Contents(), r.kid)
    {
      var stale := r.now - fetchedAt > ttl;
      var unknownKid := r.kid.Some? && r.kid.value !in keys.rows;
      var cooldownElapsed := r.now - unknownAt > COOLDOWN;
      if stale || (unknownKid && cooldownElapsed) {
        FetchJwks(r.response, r.over);
        if unknownKid {
          unknownAt := r.now;
        }
      }
      if r.kid.Some? {
        if r.kid.value in keys.rows {
          return Some(keys.rows[r.kid.value]);
        }
        return None;
      }
      if keys.order != [] && keys.order[0] in keys.rows {
        return Some(keys.rows[keys.order[0]]);
      }
      return None;
    }
  }
}
