/** The configuration manager on the heap: requests work on a cloned array, the save blanks tokens in
    that array, and the array is then published with the config. */
module Manager {
  import opened Administration
  import opened Config
  import opened ConfigStore
  import opened Health
  import opened Requests
  import opened Sanitize
  import opened Text
  import opened Wrappers
  import Cache = SharedCache

  /** How a collection ends that a Refresh waits for. */
  datatype Collection = Collected(state: Cache.Shared, now: int) | Failed(error: string)

  predicate SoundCollection(c: Collection) {
    c.Collected? ==> Cache.Sound(c.state)
  }

  method SourceIndex(c: Shared, id: string) returns (index: Option<nat>)
    requires Sound(c)
    ensures index == Find(Value(c).sources, id)
  {
    for i := 0 to c.len
      invariant forall j | 0 <= j < i :: c.data[j].id != id
    {
      if c.data[i].id == id {
        return Some(i);
      }
    }
    return None;
  }

  /** TrimRight with a slash. */
  method TrimRight(s: string) returns (t: string)
    ensures t == TrimSlashes(s)
  {
    t := s;
    while t != [] && t[|t| - 1] == '/'
      invariant TrimSlashes(t) == TrimSlashes(s)
    {
      t := t[..|t| - 1];
    }
  }

  method SourceFromUpdate(c: Shared, s: Secrets, u: SourceUpdate) returns (r: Outcome<ProxmoxHost>)
    requires Sound(c)
    ensures r == SourceFrom(Pair(Value(c), s), u)
  {
    hide Sanitized, TrimSlashes, TrimSpace, Find;
    var id := SanitizeID(u.id);
    if id == "" {
      id := SanitizeID(u.name);
    }
    if id == "" {
      return Err("source id or name is required");
    }
    var index := SourceIndex(c, id);
    var existing := NO_SOURCE;
    if index.Some? {
      existing := c.data[index.value];
    }
    var name := TrimSpace(u.name);
    if name == "" {
      name := existing.name;
    }
    if name == "" {
      name := id;
    }
    var baseURL := TrimRight(TrimSpace(u.baseURL));
    if baseURL == "" {
      baseURL := existing.baseURL;
    }
    if baseURL == "" {
      return Err("base URL is required");
    }
    var tokenValue := TrimSpace(u.token);
    if tokenValue == "" {
      tokenValue := SecretFor(s, id);
    }
    var tokenEnv := "";
    if tokenValue == "" {
      tokenEnv := existing.tokenEnv;
    }
    if tokenValue == "" && tokenEnv == "" {
      return Err("token is required");
    }
    var tls := TlsFromUpdate(u, existing.tls);
    return Ok(ProxmoxHost(id, name, baseURL, tokenEnv, tokenValue, tls));
  }

  method TlsFromUpdate(u: SourceUpdate, existing: Tls) returns (tls: Tls)
    ensures tls == TlsFor(u, existing)
  {
    var mode := TrimSpace(u.tlsMode);
    if mode == "" {
      mode := existing.mode;
    }
    if mode == "" {
      mode := "fingerprint";
    }
    tls := Tls(mode, Or(TrimSpace(u.fingerprint), existing.fingerprint), Or(TrimSpace(u.caFile), existing.caFile));
    if TrimSpace(u.fingerprint) == "" && u.tlsMode != "" {
      tls := tls.(fingerprint := "");
    }
    if TrimSpace(u.caFile) == "" && u.tlsMode != "" {
      tls := tls.(caFile := "");
    }
  }

  /** Overwrites the entry with the source's id, or appends, which may move to a new array. */
  method PutSource(c: Shared, h: ProxmoxHost) returns (r: Shared)
    requires Sound(c)
    modifies c.data
    ensures Sound(r) && (r.data == c.data || fresh(r.data))
    ensures Value(r) == old(Value(c)).(sources := Put(old(Value(c)).sources, h))
  {
    ghost var sources := Value(c).sources;
    var index := SourceIndex(c, h.id);
    if index.Some? {
      c.data[index.value] := h;
      r := c;
      assert Value(r).sources == sources[index.value := h];
    } else {
      var longer := c.data[..c.len] + [h];
      var data := new ProxmoxHost[|longer|](i requires 0 <= i < |longer| => longer[i]);
      assert data[..data.Length] == longer;
      r := c.(data := data, len := data.Length);
    }
  }

  lemma FilterStep(s: seq<ProxmoxHost>, i: nat, id: string)
    requires i < |s|
    ensures Without(s[..i + 1], id) == if s[i].id == id then Without(s[..i], id) else Without(s[..i], id) + [s[i]]
    ensures HasSource(s[..i + 1], id) <==> HasSource(s[..i], id) || s[i].id == id
  {
    assert s[..i + 1][..i] == s[..i];
    assert s[..i + 1][i] == s[i];
    assert forall j | 0 <= j < i :: s[..i + 1][j] == s[..i][j];
  }

  /** Moves the sources to keep to the front of the array they are in. */
  method FilterInPlace(c: Shared, id: string) returns (r: Shared, found: bool)
    requires Sound(c)
    modifies c.data
    ensures r == c.(len := r.len) && r.len <= c.len
    ensures Value(r).sources == Without(old(Value(c)).sources, id)
    ensures found <==> HasSource(old(Value(c)).sources, id)
  {
    ghost var sources := Value(c).sources;
    hide Without, HasSource;
    var next := 0;
    found := false;
    EmptyFilter(sources, id);
    for i := 0 to c.len
      invariant next <= i
      invariant c.data[..next] == Without(sources[..i], id)
      invariant forall j | i <= j < c.len :: c.data[j] == sources[j]
      invariant found <==> HasSource(sources[..i], id)
    {
      FilterStep(sources, i, id);
      if c.data[i].id == id {
        found := true;
      } else {
        ghost var kept := c.data[..next];
        c.data[next] := c.data[i];
        next := next + 1;
        assert c.data[..next] == kept + [sources[i]];
      }
    }
    assert sources[..c.len] == sources;
    r := c.(len := next);
  }

  lemma EmptyFilter(s: seq<ProxmoxHost>, id: string)
    ensures Without(s[..0], id) == [] && !HasSource(s[..0], id)
  {
  }

  lemma FoundMeaning(s: seq<ProxmoxHost>, id: string)
    ensures HasSource(s, id) <==> Find(s, id).Some?
  {
  }

  method SetServerFields(c: Shared, s: Secrets, u: ServerUpdate) returns (r: Shared, t: Secrets)
    requires Sound(c)
    ensures r.data == c.data && r.len == c.len
    ensures Pair(Value(r), t) == ServerFields(Pair(Value(c), s), u)
  {
    r, t := c.(server := c.server.(poll := u.poll, stale := u.stale)), s;
    var memoryWarning, storageWarning := Clamp(u.memoryWarning, 1, 100), Clamp(u.storageWarning, 1, 100);
    r := r.(alerts := Thresholds(memoryWarning, Clamp(u.memoryCritical, memoryWarning, 100),
                                 storageWarning, Clamp(u.storageCritical, storageWarning, 100)));
    if TrimSpace(u.displayToken) != "" {
      t := t.(displayToken := TrimSpace(u.displayToken));
    }
    if TrimSpace(u.adminToken) != "" {
      t := t.(adminToken := TrimSpace(u.adminToken));
    }
  }

  class Manager {
    var cfg: Shared
    var secrets: Secrets
    const disk: Disk
    const cache: Cache.Cache<Collector>
    const world: World

    ghost predicate Valid()
      reads this, cache
    {
      Sound(cfg) && cache.Valid()
    }

    /** Everything that a request changes, as one value. */
    ghost function Now(): Managed
      requires Valid()
      reads this, cfg.data, disk, cache
    {
      Managed(Value(cfg), secrets, disk.files, cache.collector, cache.pollInterval, cache.staleAfter)
    }

    constructor (cfg: Shared, secrets: Secrets, disk: Disk, cache: Cache.Cache<Collector>, world: World)
      requires Sound(cfg) && cache.Valid()
      ensures Valid() && this.cfg == cfg && this.secrets == secrets
      ensures this.disk == disk && this.cache == cache && this.world == world
    {
      this.cfg, this.secrets, this.disk, this.cache, this.world := cfg, secrets, disk, cache, world;
    }

    /** Copies the sources into an array of the caller's own. */
    method Clone() returns (c: Shared, s: Secrets)
      requires Valid()
      ensures Sound(c) && fresh(c.data) && Value(c) == Value(cfg) && s == secrets
    {
      var sources := cfg.data[..cfg.len];
      var data := new ProxmoxHost[|sources|](i requires 0 <= i < |sources| => sources[i]);
      assert data[..data.Length] == sources;
      c, s := cfg.(data := data, len := data.Length), secrets;
    }

    /** A Refresh during which nothing else happens. */
    method Refresh(collection: Collection) returns (error: Option<string>)
      requires Valid() && SoundCollection(collection)
      modifies cache
      ensures Valid() && Now() == old(Now())
      ensures error.None? <==> collection.Collected?
      ensures collection.Collected? ==> cache.state.lists.Keys >= collection.state.lists.Keys && cache.hasState
      ensures collection.Failed? ==>
                cache.lastErr.Some? && cache.state == old(cache.state) && cache.hasState == old(cache.hasState)
    {
      var collector := cache.Capture();
      match collection
      case Collected(state, now) =>
        cache.Commit(state, now);
        return None;
      case Failed(e) =>
        cache.Fail(e);
        return Some(e);
    }

    /** Builds the collector, saves, reconfigures the cache, publishes, and refreshes. An error of that
        last Refresh is returned although everything has changed by then. */
    method Apply(c: Shared, s: Secrets, failing: Step, collection: Collection) returns (error: Option<string>)
      requires Valid() && Sound(c) && c.data != cfg.data && SoundCollection(collection)
      modifies this, c.data, disk, cache
      ensures Valid() && Now() == Applied(old(Now()), old(Pair(Value(c), s)), world, failing)
      ensures error.None? <==>
                CollectorFor(Prepared(old(Pair(Value(c), s))), world).Some? && failing.Done? && collection.Collected?
    {
      ghost var p := Pair(Value(c), s);
      var full := ApplyDefaults(c);
      full := ApplySecrets(full, s);
      var collector := CollectorForConfig(Value(full), world);
      if collector.None? {
        return Some("the configuration is not valid");
      }
      var saved := Save(full, s, disk, failing);
      if !saved {
        return Some("the configuration could not be saved");
      }
      cache.Reconfigure(collector.value, full.server.poll, full.server.stale);
      cfg, secrets := full, s;
      PreparedTwice(p);
      error := Refresh(collection);
    }

    method UpdateServer(u: ServerUpdate, failing: Step, collection: Collection) returns (error: Option<string>)
      requires Valid() && SoundCollection(collection)
      modifies this, disk, cache
      ensures Valid() && Now() == Handled(old(Now()), Request.UpdateServer(u), world, failing)
      ensures error.None? <==> Succeeds(old(Now()), Request.UpdateServer(u), world, failing) && collection.Collected?
    {
      hide Applied, CollectorFor, Prepared, TrimSpace, SecretFor, Defaulted, Clamp, WithSecrets, ServerFields;
      var c, s := Clone();
      if u.poll < 5 {
        return Some("poll interval must be at least 5 seconds");
      }
      if u.stale < u.poll {
        return Some("stale after must be greater than or equal to poll interval");
      }
      c, s := SetServerFields(c, s, u);
      c := ApplySecrets(c, s);
      error := Apply(c, s, failing, collection);
    }

    method UpsertSource(u: SourceUpdate, failing: Step, collection: Collection) returns (error: Option<string>)
      requires Valid() && SoundCollection(collection)
      modifies this, disk, cache
      ensures Valid() && Now() == Handled(old(Now()), Request.UpsertSource(u), world, failing)
      ensures error.None? <==> Succeeds(old(Now()), Request.UpsertSource(u), world, failing) && collection.Collected?
    {
      hide Applied, CollectorFor, Prepared, SourceFrom, SecretFor, Defaulted;
      var c, s := Clone();
      var source := SourceFromUpdate(c, s, u);
      if source.Err? {
        return Some(source.error);
      }
      var token := TrimSpace(u.token);
      if token != "" {
        s := s.(sourceTokens := s.sourceTokens[source.value.id := token]);
      }
      c := PutSource(c, source.value);
      c := ApplySecrets(c, s);
      error := Apply(c, s, failing, collection);
    }

    /** The filter works in the clone's array; the published one is not touched. */
    method DeleteSource(id: string, failing: Step, collection: Collection) returns (error: Option<string>)
      requires Valid() && SoundCollection(collection)
      modifies this, disk, cache
      ensures Valid() && Now() == Handled(old(Now()), Request.DeleteSource(id), world, failing)
      ensures error.None? <==> Succeeds(old(Now()), Request.DeleteSource(id), world, failing) && collection.Collected?
      ensures old(cfg).data[..] == old(cfg.data[..])
    {
      hide Applied, CollectorFor, Prepared, Sanitized, Without, SecretFor, Defaulted;
      var clean := SanitizeID(id);
      if clean == "" {
        return Some("source id is required");
      }
      var c, s := Clone();
      var found;
      FoundMeaning(Value(c).sources, clean);
      c, found := FilterInPlace(c, clean);
      if !found {
        return Some("source was not found");
      }
      s := s.(sourceTokens := s.sourceTokens - {clean});
      c := ApplySecrets(c, s);
      error := Apply(c, s, failing, collection);
    }
  }
}
