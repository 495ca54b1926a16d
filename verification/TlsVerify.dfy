/** Certificate verification with repair of incomplete chains
    (internal/tlsverify/tlsverify.go; RFC 5280, sections 4.2.2.1 and 6.1).

    A certificate is the handful of facts the walk depends on. One clock reading
    serves a whole call of Verify, and `net` says which certificates a caIssuers URL
    yields when it is fetched (a URL outside it fails). */
module TlsVerify {
  import opened Common
  import opened FifoCache

  const MAX_AIA_HOPS := 4
  const MAX_AIA_URLS_PER_CERT := 3
  const MAX_AIA_CACHE_ENTRIES := 256
  const MAX_HOST_TRANSPORTS := 128
  const ISSUER_FRESHNESS_GRACE: Time := 300 * SECOND

  datatype Certificate = Certificate(
    subject: string,
    issuer: string,
    key: nat,
    signedBy: nat,          // the key that signed this certificate
    isCA: bool,
    notBefore: Time,
    notAfter: Time,
    names: set<string>,
    serverAuth: bool,
    issuingCertificateURL: seq<string>)

  type Network = map<string, seq<Certificate>>

  /** Names match and the signature of `child` verifies under the key of `parent`. */
  predicate Issues(parent: Certificate, child: Certificate) {
    parent.subject == child.issuer && parent.key == child.signedBy && parent.isCA
  }

  predicate Current(c: Certificate, now: Time) {
    c.notBefore <= now <= c.notAfter
  }

  predicate IsIssuerOf(c: Certificate, child: Certificate, now: Time) {
    Issues(c, child) && c.notBefore - ISSUER_FRESHNESS_GRACE <= now <= c.notAfter + ISSUER_FRESHNESS_GRACE
  }

  /** What makes a fetched certificate an issuer: its name and key are the ones the child
      states, it may sign, and it is at most five minutes outside its validity window. */
  ghost predicate TrueIssuer(c: Certificate, child: Certificate, now: Time) {
    && c.subject == child.issuer && c.key == child.signedBy && c.isCA
    && c.notBefore - 300 * SECOND <= now <= c.notAfter + 300 * SECOND
  }

  ghost predicate InWindow(c: Certificate, at: Time) {
    c.notBefore <= at <= c.notAfter
  }

  /** A fetched issuer may be outside its validity window: what counts is that some clock
      at most the grace away would find it inside. */
  lemma GraceIsSkew(c: Certificate, child: Certificate, now: Time)
    requires c.notBefore <= c.notAfter
    ensures IsIssuerOf(c, child, now) <==>
            && c.subject == child.issuer && c.key == child.signedBy && c.isCA
            && exists at :: now - 300 * SECOND <= at <= now + 300 * SECOND && InWindow(c, at)
  {
    if IsIssuerOf(c, child, now) {
      var at := if now < c.notBefore then c.notBefore else if now > c.notAfter then c.notAfter else now;
      assert InWindow(c, at);
    }
  }

  /** An issuer that expired five minutes ago still counts as one. */
  lemma ExpiredIssuerCounts(c: Certificate, child: Certificate)
    requires Issues(c, child) && c.notBefore <= c.notAfter
    ensures var now := c.notAfter + 300 * SECOND;
            IsIssuerOf(c, child, now) && !Current(c, now) && !IsIssuerOf(c, child, now + 1)
  {
  }

  // ---------------------------------------------------------------- path validation

  /** A certification path from `leaf` through `pool` to a root: each certificate is
      issued by the next, and every issuer on it is inside its validity window. */
  ghost predicate IsPath(path: seq<Certificate>, leaf: Certificate, roots: set<Certificate>,
                         pool: set<Certificate>, now: Time)
  {
    && path != [] && path[0] == leaf && path[|path| - 1] in roots
    && (forall i :: 0 <= i < |path| - 1 ==> Signed(path[i], path[i + 1]))
    && (forall i :: 0 < i < |path| ==> path[i].notBefore <= now <= path[i].notAfter)
    && (forall i :: 0 < i < |path| - 1 ==> path[i] in pool)
  }

  ghost predicate Signed(child: Certificate, issuer: Certificate) {
    issuer.subject == child.issuer && issuer.key == child.signedBy && issuer.isCA
  }

  ghost predicate Trusted(leaf: Certificate, roots: set<Certificate>, pool: set<Certificate>, now: Time) {
    exists path :: IsPath(path, leaf, roots, pool, now)
  }

  /** The certificates of `pool` that extend a path ending in `reached` by one. */
  function NextUp(reached: set<Certificate>, pool: set<Certificate>, now: Time): set<Certificate> {
    set c | c in pool && c !in reached && Current(c, now) && exists r :: r in reached && Issues(c, r)
  }

  lemma ClimbShrinks(reached: set<Certificate>, pool: set<Certificate>, more: set<Certificate>)
    requires more <= pool && more != {} && more !! reached
    ensures |pool - (reached + more)| < |pool - reached|
  {
    var c :| c in more;
    SubsetSize(pool - (reached + more), pool - reached - {c});
  }

  function Climb(reached: set<Certificate>, pool: set<Certificate>, now: Time): (r: set<Certificate>)
    ensures reached <= r
    ensures NextUp(r, pool, now) == {}
    decreases |pool - reached|
  {
    var more := NextUp(reached, pool, now);
    if more == {} then reached
    else
      ClimbShrinks(reached, pool, more);
      Climb(reached + more, pool, now)
  }

  /** Whether some climb from the leaf meets a root; what path building decides. */
  predicate ReachesRoot(leaf: Certificate, roots: set<Certificate>, pool: set<Certificate>, now: Time) {
    || leaf in roots
    || exists root :: root in roots && Current(root, now)
         && exists r :: r in Climb({leaf}, pool, now) && Issues(root, r)
  }

  /** A path without its last step: from the leaf to `top`, inside the pool. */
  ghost predicate IsStem(path: seq<Certificate>, leaf: Certificate, top: Certificate, pool: set<Certificate>, now: Time) {
    && path != [] && path[0] == leaf && path[|path| - 1] == top
    && (forall i :: 0 <= i < |path| - 1 ==> Signed(path[i], path[i + 1]))
    && (forall i :: 0 < i < |path| ==> path[i].notBefore <= now <= path[i].notAfter && path[i] in pool)
  }

  lemma StemGrows(path: seq<Certificate>, leaf: Certificate, r: Certificate, c: Certificate, pool: set<Certificate>, now: Time)
    requires IsStem(path, leaf, r, pool, now) && Issues(c, r) && Current(c, now) && c in pool
    ensures IsStem(path + [c], leaf, c, pool, now)
  {
  }

  lemma {:induction false} ClimbHasStems(leaf: Certificate, reached: set<Certificate>, pool: set<Certificate>, now: Time)
    requires forall c :: c in reached ==> exists path :: IsStem(path, leaf, c, pool, now)
    ensures forall c :: c in Climb(reached, pool, now) ==> exists path :: IsStem(path, leaf, c, pool, now)
    decreases |pool - reached|
  {
    var more := NextUp(reached, pool, now);
    if more != {} {
      forall c | c in more ensures exists path :: IsStem(path, leaf, c, pool, now) {
        var r :| r in reached && Issues(c, r);
        var path :| IsStem(path, leaf, r, pool, now);
        StemGrows(path, leaf, r, c, pool, now);
      }
      hide IsStem;
      ClimbShrinks(reached, pool, more);
      ClimbHasStems(leaf, reached + more, pool, now);
    }
  }

  lemma {:induction false} StemIsClimbed(path: seq<Certificate>, leaf: Certificate, pool: set<Certificate>, now: Time, n: nat)
    requires path != [] && path[0] == leaf && n < |path|
    requires forall i :: 0 <= i < |path| - 1 ==> Signed(path[i], path[i + 1])
    requires forall i :: 0 < i <= n ==> Current(path[i], now) && path[i] in pool
    ensures path[n] in Climb({leaf}, pool, now)
  {
    if n > 0 {
      StemIsClimbed(path, leaf, pool, now, n - 1);
      assert Signed(path[n - 1], path[n - 1 + 1]);
      assert path[n] !in NextUp(Climb({leaf}, pool, now), pool, now);
    }
  }

  lemma ClimbedRootIsTrusted(leaf: Certificate, roots: set<Certificate>, pool: set<Certificate>, now: Time,
                             r: Certificate, root: Certificate)
    requires r in Climb({leaf}, pool, now) && root in roots && Current(root, now) && Issues(root, r)
    ensures Trusted(leaf, roots, pool, now)
  {
    assert IsStem([leaf], leaf, leaf, pool, now);
    ClimbHasStems(leaf, {leaf}, pool, now);
    var stem :| IsStem(stem, leaf, r, pool, now);
    assert IsPath(stem + [root], leaf, roots, pool, now);
  }

  lemma PathIsClimbed(leaf: Certificate, roots: set<Certificate>, pool: set<Certificate>, now: Time, path: seq<Certificate>)
    requires IsPath(path, leaf, roots, pool, now) && leaf !in roots
    ensures ReachesRoot(leaf, roots, pool, now)
  {
    var last := |path| - 1;
    assert last > 0;
    StemIsClimbed(path, leaf, pool, now, last - 1);
    assert Signed(path[last - 1], path[last - 1 + 1]);
  }

  /** Climbing decides exactly whether a certification path exists. */
  lemma ReachesRootIffTrusted(leaf: Certificate, roots: set<Certificate>, pool: set<Certificate>, now: Time)
    ensures ReachesRoot(leaf, roots, pool, now) <==> Trusted(leaf, roots, pool, now)
  {
    if leaf in roots {
      assert IsPath([leaf], leaf, roots, pool, now);
    } else {
      if ReachesRoot(leaf, roots, pool, now) {
        var root :| root in roots && Current(root, now) && exists r :: r in Climb({leaf}, pool, now) && Issues(root, r);
        var r :| r in Climb({leaf}, pool, now) && Issues(root, r);
        ClimbedRootIsTrusted(leaf, roots, pool, now, r, root);
      }
      if Trusted(leaf, roots, pool, now) {
        var path :| IsPath(path, leaf, roots, pool, now);
        PathIsClimbed(leaf, roots, pool, now, path);
      }
    }
  }

  /** A larger pool trusts no less. */
  lemma TrustGrows(leaf: Certificate, roots: set<Certificate>, pool: set<Certificate>, more: set<Certificate>, now: Time)
    requires Trusted(leaf, roots, pool, now) && pool <= more
    ensures Trusted(leaf, roots, more, now)
  {
    var path :| IsPath(path, leaf, roots, pool, now);
    assert IsPath(path, leaf, roots, more, now);
  }

  predicate LeafAcceptable(leaf: Certificate, serverName: string, now: Time) {
    Current(leaf, now) && serverName in leaf.names && leaf.serverAuth
  }

  /** leaf.Verify returns no error. */
  predicate Accepts(leaf: Certificate, serverName: string, roots: set<Certificate>, pool: set<Certificate>, now: Time) {
    LeafAcceptable(leaf, serverName, now) && ReachesRoot(leaf, roots, pool, now)
  }

  /** The search for a path comes across an issuer outside its validity window. */
  predicate MeetsExpired(leaf: Certificate, roots: set<Certificate>, pool: set<Certificate>, now: Time) {
    exists c :: c in pool + roots && !Current(c, now) && exists r :: r in Climb({leaf}, pool, now) && Issues(c, r)
  }

  // The three ways leaf.Verify can end: no error, UnknownAuthorityError, any other error.
  datatype Verdict = Accepted | UnknownAuthority | Rejected

  /** A failed search ends in an unknown authority, unless it came across an expired issuer
      and the library reports that instead. Which of the two it reports depends on the
      order of its search, so `blames` says it for each pool. */
  function VerifyChain(leaf: Certificate, serverName: string, roots: set<Certificate>, pool: set<Certificate>, now: Time,
                       blames: set<Certificate> -> bool): (verdict: Verdict)
    ensures verdict == Accepted <==> Accepts(leaf, serverName, roots, pool, now)
  {
    if !Current(leaf, now) || serverName !in leaf.names then Rejected
    else if !ReachesRoot(leaf, roots, pool, now) then
      if MeetsExpired(leaf, roots, pool, now) && blames(pool) then Rejected else UnknownAuthority
    else if !leaf.serverAuth then Rejected
    else Accepted
  }

  /** A search meets an expired issuer when some issuer of a certificate it reaches is outside its window. */
  lemma MeetsExpiredMeans(leaf: Certificate, roots: set<Certificate>, pool: set<Certificate>, now: Time)
    ensures MeetsExpired(leaf, roots, pool, now) <==>
            exists path, reached, issuer ::
              && IsStem(path, leaf, reached, pool, now) && Signed(reached, issuer)
              && issuer in pool + roots && !(issuer.notBefore <= now <= issuer.notAfter)
  {
    if MeetsExpired(leaf, roots, pool, now) {
      var c :| c in pool + roots && !Current(c, now) && exists r :: r in Climb({leaf}, pool, now) && Issues(c, r);
      var r :| r in Climb({leaf}, pool, now) && Issues(c, r);
      assert IsStem([leaf], leaf, leaf, pool, now);
      ClimbHasStems(leaf, {leaf}, pool, now);
      var stem :| IsStem(stem, leaf, r, pool, now);
      assert Signed(r, c);
    }
    if path, reached, issuer :| && IsStem(path, leaf, reached, pool, now) && Signed(reached, issuer)
                                && issuer in pool + roots && !(issuer.notBefore <= now <= issuer.notAfter) {
      StemIsClimbed(path, leaf, pool, now, |path| - 1);
      assert Issues(issuer, reached);
    }
  }

  /** The chain is only called incomplete when nothing else is wrong with the leaf itself and
      no path leads to a root. */
  lemma VerdictMeans(leaf: Certificate, serverName: string, roots: set<Certificate>, pool: set<Certificate>, now: Time,
                     blames: set<Certificate> -> bool)
    ensures var verdict := VerifyChain(leaf, serverName, roots, pool, now, blames);
            && (verdict == Accepted <==>
                && leaf.notBefore <= now <= leaf.notAfter && serverName in leaf.names && leaf.serverAuth
                && Trusted(leaf, roots, pool, now))
            && (verdict == UnknownAuthority <==>
                && leaf.notBefore <= now <= leaf.notAfter && serverName in leaf.names
                && !Trusted(leaf, roots, pool, now) && !(MeetsExpired(leaf, roots, pool, now) && blames(pool)))
  {
    ReachesRootIffTrusted(leaf, roots, pool, now);
  }

  // ---------------------------------------------------------------- fetching issuers

  predicate IsHttp(url: string) {
    "http://" <= url || "https://" <= url
  }

  /** Fetching `url` yields some issuer of `child`. */
  ghost predicate Serves(net: Network, url: string, child: Certificate, now: Time) {
    url in net && exists c :: c in net[url] && TrueIssuer(c, child, now)
  }

  /** Every certificate the process could come up with: cached or downloadable. */
  ghost function Known(cached: map<string, Certificate>, net: Network): set<Certificate> {
    cached.Values + set url, i | url in net && 0 <= i < |net[url]| :: net[url][i]
  }

  method IssuerFromURL(cache: Cache<Certificate>, net: Network, url: string, child: Certificate, now: Time)
    returns (issuer: Option<Certificate>)
    requires cache.Valid()
    modifies cache
    ensures cache.Valid()
    ensures issuer.Some? ==> TrueIssuer(issuer.value, child, now) && issuer.value in Known(old(cache.entries), net)
    ensures issuer.Some? <==>
              (url in old(cache.entries) && TrueIssuer(old(cache.entries)[url], child, now)) || Serves(net, url, child, now)
    ensures issuer.None? ==> cache.entries == old(cache.entries)
    ensures issuer.Some? ==> url in cache.entries
    ensures cache.log == if issuer.Some? && url !in old(cache.entries) then old(cache.log) + [url] else old(cache.log)
    ensures Known(cache.entries, net) <= Known(old(cache.entries), net)
  {
    if url in cache.entries && IsIssuerOf(cache.entries[url], child, now) {
      assert cache.entries[url] in cache.entries.Values;
      return Some(cache.entries[url]);
    }
    if url !in net {
      return None;
    }
    var candidates := net[url];
    for i := 0 to |candidates|
      invariant cache.entries == old(cache.entries) && cache.log == old(cache.log) && cache.Valid()
      invariant forall j :: 0 <= j < i ==> !IsIssuerOf(candidates[j], child, now)
    {
      if IsIssuerOf(candidates[i], child, now) {
        cache.PutIfAbsent(url, candidates[i]);
        assert candidates[i] in candidates && net[url][i] in Known(old(cache.entries), net);
        return Some(candidates[i]);
      }
    }
    issuer := None;
  }

  /** The URL may be fetched: plain http, the usual scheme for issuers, or https. */
  ghost predicate MayFetch(url: string) {
    exists rest :: url == "http://" + rest || url == "https://" + rest
  }

  lemma HttpMayBeFetched(url: string)
    ensures IsHttp(url) <==> MayFetch(url)
  {
    if "http://" <= url {
      assert url == "http://" + url[7..];
    } else if "https://" <= url {
      assert url == "https://" + url[8..];
    }
  }

  /** One of the first three caIssuers URLs, of a scheme that may be fetched. */
  ghost predicate IsTried(child: Certificate, k: nat) {
    k < |child.issuingCertificateURL| && k < 3 && MayFetch(child.issuingCertificateURL[k])
  }

  method FetchIssuer(cache: Cache<Certificate>, net: Network, child: Certificate, now: Time)
    returns (issuer: Option<Certificate>)
    requires cache.Valid()
    modifies cache
    ensures cache.Valid()
    ensures issuer.Some? ==> TrueIssuer(issuer.value, child, now) && issuer.value in Known(old(cache.entries), net)
    ensures issuer.None? ==>
              forall k: nat, rest :: && k < |child.issuingCertificateURL| && k < 3
                                     && child.issuingCertificateURL[k] in {"http://" + rest, "https://" + rest}
                                     ==> !Serves(net, child.issuingCertificateURL[k], child, now)
    ensures issuer.None? ==> forall k: nat :: IsTried(child, k) ==> !Serves(net, child.issuingCertificateURL[k], child, now)
    ensures issuer.Some? ==> exists k: nat :: IsTried(child, k) && var url := child.issuingCertificateURL[k];
              (url in old(cache.entries) && TrueIssuer(old(cache.entries)[url], child, now)) || Serves(net, url, child, now)
    ensures Known(cache.entries, net) <= Known(old(cache.entries), net)
  {
    var urls := child.issuingCertificateURL;
    var index := 0;
    while index < |urls| && index < MAX_AIA_URLS_PER_CERT
      invariant 0 <= index <= |urls| && cache.Valid()
      invariant cache.entries == old(cache.entries)
      invariant forall k: nat :: k < index && IsTried(child, k) ==> !Serves(net, urls[k], child, now)
    {
      HttpMayBeFetched(urls[index]);
      if IsHttp(urls[index]) {
        issuer := IssuerFromURL(cache, net, urls[index], child, now);
        if issuer.Some? {
          assert IsTried(child, index);
          return;
        }
      }
      index := index + 1;
    }
    issuer := None;
  }

  // ---------------------------------------------------------------- Verify

  /** The certificate that `walk[i]` is fetched for, when the walk starts at `first`. */
  function Child(first: Certificate, walk: seq<Certificate>, i: nat): Certificate
    requires i <= |walk|
  {
    if i == 0 then first else walk[i - 1]
  }

  /** Each certificate is a true issuer of the one before it, the first of `first`. */
  ghost predicate IssuerWalk(first: Certificate, walk: seq<Certificate>, now: Time) {
    forall i :: 0 <= i < |walk| ==> TrueIssuer(walk[i], Child(first, walk, i), now)
  }

  /** `issuer` is the only known issuer of `child`, and one of the URLs tried for `child` serves it. */
  ghost predicate IsServedIssuer(issuer: Certificate, child: Certificate, known: set<Certificate>, net: Network, now: Time) {
    && (forall c :: c in known && TrueIssuer(c, child, now) ==> c == issuer)
    && exists k: nat :: IsTried(child, k) && Serves(net, child.issuingCertificateURL[k], child, now)
  }

  /** `missing` repairs the chain within the limits: at most four certificates, each the
      only known issuer of the one before and served at one of the first three
      caIssuers URLs of that one, and together they connect the leaf to a root. */
  ghost predicate Repairs(missing: seq<Certificate>, peers: seq<Certificate>, roots: set<Certificate>,
                          known: set<Certificate>, net: Network, now: Time)
    requires peers != []
  {
    && |missing| <= 4
    && Trusted(peers[0], roots, Elements(peers[1..] + missing), now)
    && EachServed(missing, peers[|peers| - 1], known, net, now)
  }

  ghost predicate EachServed(missing: seq<Certificate>, first: Certificate, known: set<Certificate>, net: Network, now: Time) {
    forall i :: 0 <= i < |missing| ==> IsServedIssuer(missing[i], Child(first, missing, i), known, net, now)
  }

  /** The next hop of `missing` is the only known issuer of the last one made, and can be fetched. */
  lemma NextHop(missing: seq<Certificate>, first: Certificate, known: set<Certificate>, net: Network, now: Time,
                fetched: seq<Certificate>)
    requires EachServed(missing, first, known, net, now)
    requires |fetched| < |missing| && fetched == missing[..|fetched|]
    ensures IsServedIssuer(missing[|fetched|], Child(first, fetched, |fetched|), known, net, now)
  {
    assert Child(first, fetched, |fetched|) == Child(first, missing, |fetched|);
  }

  /** While a repairing `missing` has been followed without acceptance, there is more of it to follow. */
  lemma NotThereYet(missing: seq<Certificate>, peers: seq<Certificate>, serverName: string, roots: set<Certificate>,
                    known: set<Certificate>, net: Network, now: Time, fetched: seq<Certificate>)
    requires peers != [] && LeafAcceptable(peers[0], serverName, now) && Repairs(missing, peers, roots, known, net, now)
    requires |fetched| <= |missing| && fetched == missing[..|fetched|]
    requires !Accepts(peers[0], serverName, roots, Elements(peers[1..] + fetched), now)
    ensures |fetched| < |missing|
  {
    ReachesRootIffTrusted(peers[0], roots, Elements(peers[1..] + fetched), now);
    assert missing[..|missing|] == missing;
  }

  /** `fetched` follows `missing`, and there is more of it, whenever `missing` repairs the chain. */
  ghost predicate OnCourse(missing: seq<Certificate>, peers: seq<Certificate>, serverName: string, roots: set<Certificate>,
                           known: set<Certificate>, net: Network, now: Time, fetched: seq<Certificate>)
    requires peers != []
  {
    LeafAcceptable(peers[0], serverName, now) && Repairs(missing, peers, roots, known, net, now) ==>
      |fetched| < |missing| && fetched == missing[..|fetched|]
  }

  lemma StartsOnCourse(missing: seq<Certificate>, peers: seq<Certificate>, serverName: string, roots: set<Certificate>,
                       known: set<Certificate>, net: Network, now: Time)
    requires peers != [] && !Accepts(peers[0], serverName, roots, Elements(peers[1..]), now)
    ensures OnCourse(missing, peers, serverName, roots, known, net, now, [])
  {
    if LeafAcceptable(peers[0], serverName, now) && Repairs(missing, peers, roots, known, net, now) {
      assert peers[1..] + [] == peers[1..];
      NotThereYet(missing, peers, serverName, roots, known, net, now, []);
    }
  }

  /** Any known issuer of the last hop is the next of `missing`. */
  lemma StaysOnCourse(missing: seq<Certificate>, peers: seq<Certificate>, serverName: string, roots: set<Certificate>,
                      known: set<Certificate>, net: Network, now: Time, fetched: seq<Certificate>, issuer: Certificate)
    requires peers != [] && OnCourse(missing, peers, serverName, roots, known, net, now, fetched)
    requires issuer in known && TrueIssuer(issuer, Child(peers[|peers| - 1], fetched, |fetched|), now)
    requires !Accepts(peers[0], serverName, roots, Elements(peers[1..] + (fetched + [issuer])), now)
    ensures OnCourse(missing, peers, serverName, roots, known, net, now, fetched + [issuer])
  {
    hide Trusted, ReachesRoot, Accepts, LeafAcceptable, TrueIssuer, Serves;
    if LeafAcceptable(peers[0], serverName, now) && Repairs(missing, peers, roots, known, net, now) {
      NextHop(missing, peers[|peers| - 1], known, net, now, fetched);
      assert missing[|fetched|] == issuer;
      hide IsServedIssuer, EachServed, Child;
      PrefixGrows(missing, fetched, issuer);
      NotThereYet(missing, peers, serverName, roots, known, net, now, fetched + [issuer]);
    }
  }

  lemma PrefixGrows(missing: seq<Certificate>, fetched: seq<Certificate>, issuer: Certificate)
    requires |fetched| < |missing| && fetched == missing[..|fetched|] && missing[|fetched|] == issuer
    ensures fetched + [issuer] == missing[..|fetched + [issuer]|]
  {
  }

  /** On course, the issuer of the last hop can be fetched. */
  lemma CanGoOn(missing: seq<Certificate>, peers: seq<Certificate>, serverName: string, roots: set<Certificate>,
                known: set<Certificate>, net: Network, now: Time, fetched: seq<Certificate>)
    requires peers != [] && OnCourse(missing, peers, serverName, roots, known, net, now, fetched)
    requires LeafAcceptable(peers[0], serverName, now) && Repairs(missing, peers, roots, known, net, now)
    ensures var child := Child(peers[|peers| - 1], fetched, |fetched|);
            exists k: nat :: IsTried(child, k) && Serves(net, child.issuingCertificateURL[k], child, now)
  {
    NextHop(missing, peers[|peers| - 1], known, net, now, fetched);
  }

  /** Four hops are as far as any repair goes. */
  lemma CourseEnds(missing: seq<Certificate>, peers: seq<Certificate>, serverName: string, roots: set<Certificate>,
                   known: set<Certificate>, net: Network, now: Time, fetched: seq<Certificate>)
    requires peers != [] && OnCourse(missing, peers, serverName, roots, known, net, now, fetched)
    requires |fetched| == 4
    ensures !(LeafAcceptable(peers[0], serverName, now) && Repairs(missing, peers, roots, known, net, now))
  {
  }

  lemma WalkGrows(first: Certificate, walk: seq<Certificate>, issuer: Certificate, now: Time)
    requires IssuerWalk(first, walk, now) && TrueIssuer(issuer, Child(first, walk, |walk|), now)
    ensures IssuerWalk(first, walk + [issuer], now)
  {
    var more := walk + [issuer];
    forall i | 0 <= i < |more| ensures TrueIssuer(more[i], Child(first, more, i), now) {
      assert Child(first, more, i) == Child(first, walk, i);
    }
  }

  /** The hop loop of Verify, entered after plain verification ended in an unknown authority. */
  method Repair(peers: seq<Certificate>, serverName: string, roots: set<Certificate>, cache: Cache<Certificate>,
                net: Network, now: Time, ghost missing: seq<Certificate>)
    returns (ok: bool, ghost fetched: seq<Certificate>)
    requires cache.Valid() && peers != []
    requires !Accepts(peers[0], serverName, roots, Elements(peers[1..]), now)
    modifies cache
    ensures cache.Valid()
    ensures IssuerWalk(peers[|peers| - 1], fetched, now) && |fetched| <= 4
    ensures ok ==> Accepts(peers[0], serverName, roots, Elements(peers[1..] + fetched), now)
    ensures (&& LeafAcceptable(peers[0], serverName, now)
             && Repairs(missing, peers, roots, Known(old(cache.entries), net), net, now)) ==> ok
  {
    ghost var known := Known(old(cache.entries), net);
    ghost var repairs := LeafAcceptable(peers[0], serverName, now) && Repairs(missing, peers, roots, known, net, now);
    var intermediates, current := Elements(peers[1..]), peers[|peers| - 1];
    fetched := [];
    assert peers[1..] + fetched == peers[1..];
    StartsOnCourse(missing, peers, serverName, roots, known, net, now);
    assert IssuerWalk(peers[|peers| - 1], fetched, now);
    hide OnCourse, Repairs, ReachesRoot, IssuerWalk, TrueIssuer, IsTried, MayFetch, Serves, Accepts, LeafAcceptable, Known;
    for hop := 0 to MAX_AIA_HOPS
      invariant hop == |fetched| && cache.Valid() && Known(cache.entries, net) <= known
      invariant intermediates == Elements(peers[1..] + fetched)
      invariant IssuerWalk(peers[|peers| - 1], fetched, now)
      invariant current == Child(peers[|peers| - 1], fetched, |fetched|)
      invariant OnCourse(missing, peers, serverName, roots, known, net, now, fetched)
    {
      if repairs {
        CanGoOn(missing, peers, serverName, roots, known, net, now, fetched);
      }
      var issuer := FetchIssuer(cache, net, current, now);
      if issuer.None? {
        return false, fetched;
      }
      intermediates := intermediates + {issuer.value};
      ElementsAppend(peers[1..], fetched, issuer.value);
      WalkGrows(peers[|peers| - 1], fetched, issuer.value, now);
      if Accepts(peers[0], serverName, roots, intermediates, now) {
        return true, fetched + [issuer.value];
      }
      StaysOnCourse(missing, peers, serverName, roots, known, net, now, fetched, issuer.value);
      fetched := fetched + [issuer.value];
      current := issuer.value;
    }
    CourseEnds(missing, peers, serverName, roots, known, net, now, fetched);
    ok := false;
  }

  /** Accepts only a leaf that matches the server and reaches a system root through what
      the peer sent and a walk of fetched true issuers; accepts whatever plain
      verification accepts; and accepts whenever some `missing` repairs the chain, unless
      plain verification blames an expired issuer among the presented certificates. */
  method Verify(peers: seq<Certificate>, serverName: string, roots: Option<set<Certificate>>, fetchEnabled: bool,
                cache: Cache<Certificate>, net: Network, now: Time, blames: set<Certificate> -> bool,
                ghost missing: seq<Certificate>)
    returns (ok: bool, ghost fetched: seq<Certificate>)
    requires cache.Valid()
    modifies cache
    ensures cache.Valid()
    ensures ok ==>
              && peers != [] && roots.Some?
              && peers[0].notBefore <= now <= peers[0].notAfter && serverName in peers[0].names && peers[0].serverAuth
              && LeafAcceptable(peers[0], serverName, now)
              && Trusted(peers[0], roots.value, Elements(peers[1..] + fetched), now)
              && IssuerWalk(peers[|peers| - 1], fetched, now) && |fetched| <= 4
    ensures peers != [] && roots.Some? ==>
              var plain := VerifyChain(peers[0], serverName, roots.value, Elements(peers[1..]), now, blames);
              && (plain == Accepted ==> ok && fetched == [])
              && (plain == Rejected || !fetchEnabled ==> ok == (plain == Accepted) && fetched == [])
    ensures (&& peers != [] && roots.Some? && fetchEnabled && LeafAcceptable(peers[0], serverName, now)
             && !(MeetsExpired(peers[0], roots.value, Elements(peers[1..]), now) && blames(Elements(peers[1..])))
             && Repairs(missing, peers, roots.value, Known(old(cache.entries), net), net, now)) ==> ok
  {
    fetched := [];
    if peers == [] || roots.None? {
      return false, fetched;
    }
    assert peers[1..] + fetched == peers[1..];
    var verdict := VerifyChain(peers[0], serverName, roots.value, Elements(peers[1..]), now, blames);
    if verdict == Accepted {
      ReachesRootIffTrusted(peers[0], roots.value, Elements(peers[1..]), now);
      return true, fetched;
    }
    if !fetchEnabled || verdict != UnknownAuthority {
      return false, fetched;
    }
    ok, fetched := Repair(peers, serverName, roots.value, cache, net, now, missing);
    ReachesRootIffTrusted(peers[0], roots.value, Elements(peers[1..] + fetched), now);
  }

  /** The ordinary repair, in the terms of the certificates alone: the server sends only its
      leaf, the one known certificate with the name and key that the leaf states is served
      at one of its first three http or https URLs, and a root issued it. */
  method VerifyWithoutIntermediate(leaf: Certificate, issuer: Certificate, root: Certificate, serverName: string,
                                   roots: set<Certificate>, k: nat, rest: string, cache: Cache<Certificate>, net: Network,
                                   now: Time, blames: set<Certificate> -> bool)
    returns (ok: bool)
    requires cache.Valid()
    requires leaf.notBefore <= now <= leaf.notAfter && serverName in leaf.names && leaf.serverAuth
    requires issuer.subject == leaf.issuer && issuer.key == leaf.signedBy && issuer.isCA
    requires issuer.notBefore <= now <= issuer.notAfter
    requires root in roots && root.subject == issuer.issuer && root.key == issuer.signedBy && root.isCA
    requires root.notBefore <= now <= root.notAfter
    requires k < 3 && k < |leaf.issuingCertificateURL|
    requires leaf.issuingCertificateURL[k] == "http://" + rest || leaf.issuingCertificateURL[k] == "https://" + rest
    requires leaf.issuingCertificateURL[k] in net && issuer in net[leaf.issuingCertificateURL[k]]
    requires forall c :: c in Known(cache.entries, net) && c.subject == leaf.issuer && c.key == leaf.signedBy ==> c == issuer
    requires forall c :: c in roots && c.subject == leaf.issuer && c.key == leaf.signedBy ==> c.notBefore <= now <= c.notAfter
    modifies cache
    ensures ok
  {
    OneIsMissing(leaf, issuer, root, roots, Known(cache.entries, net), net, now, k);
    NothingExpired(leaf, roots, now);
    ghost var fetched;
    ok, fetched := Verify([leaf], serverName, Some(roots), true, cache, net, now, blames, [issuer]);
  }

  lemma OneIsMissing(leaf: Certificate, issuer: Certificate, root: Certificate, roots: set<Certificate>,
                     known: set<Certificate>, net: Network, now: Time, k: nat)
    requires Signed(leaf, issuer) && Signed(issuer, root) && root in roots
    requires issuer.notBefore <= now <= issuer.notAfter && root.notBefore <= now <= root.notAfter
    requires IsTried(leaf, k) && leaf.issuingCertificateURL[k] in net && issuer in net[leaf.issuingCertificateURL[k]]
    requires forall c :: c in known && c.subject == leaf.issuer && c.key == leaf.signedBy ==> c == issuer
    ensures Repairs([issuer], [leaf], roots, known, net, now)
  {
    var path := [leaf, issuer, root];
    assert [leaf][1..] + [issuer] == [issuer];
    assert IsPath(path, leaf, roots, Elements([issuer]), now);
    assert TrueIssuer(issuer, leaf, now) && Serves(net, leaf.issuingCertificateURL[k], leaf, now);
    assert IsServedIssuer(issuer, leaf, known, net, now);
  }

  lemma NothingExpired(leaf: Certificate, roots: set<Certificate>, now: Time)
    requires forall c :: c in roots && c.subject == leaf.issuer && c.key == leaf.signedBy ==> c.notBefore <= now <= c.notAfter
    ensures !MeetsExpired(leaf, roots, Elements([leaf][1..]), now)
  {
    assert [leaf][1..] == [] && Elements<Certificate>([]) == {};
    assert Climb({leaf}, {}, now) == {leaf};
  }

  // ---------------------------------------------------------------- per-host transports

  // A clone of the base transport whose TLS configuration is pinned to one host.
  datatype Transport = Transport(serverName: string)

  ghost predicate Pinned(hosts: map<string, Transport>) {
    forall host :: host in hosts ==> hosts[host].serverName == host
  }

  method TransportFor(hosts: Cache<Transport>, host: string) returns (transport: Transport)
    requires hosts.Valid() && Pinned(hosts.entries)
    modifies hosts
    ensures hosts.Valid() && Pinned(hosts.entries) && |hosts.entries| <= hosts.capacity
    ensures transport.serverName == host && host in hosts.entries && hosts.entries[host] == transport
    ensures hosts.log == if host in old(hosts.entries) then old(hosts.log) else old(hosts.log) + [host]
  {
    hosts.SizeBounded();
    if host in hosts.entries {
      return hosts.entries[host];
    }
    transport := Transport(host);
    hosts.PutIfAbsent(host, transport);
    hosts.SizeBounded();
  }

  /** The process-wide issuer cache and a wrapped client start empty, with the limits of the source. */
  method NewCaches() returns (issuers: Cache<Certificate>, hosts: Cache<Transport>)
    ensures fresh(issuers) && issuers.Valid() && issuers.capacity == 256
    ensures fresh(hosts) && hosts.Valid() && hosts.capacity == 128 && Pinned(hosts.entries)
  {
    issuers := new Cache(MAX_AIA_CACHE_ENTRIES);
    hosts := new Cache(MAX_HOST_TRANSPORTS);
  }
}
