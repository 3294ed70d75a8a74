/** The admin requests as transformations of a config and its secrets, and what they keep. */
module Requests {
  import opened Config
  import opened ConfigStore
  import opened Folds
  import opened Health
  import opened Sanitize
  import opened Text
  import opened Wrappers

  datatype Pair = Pair(cfg: Config, secrets: Secrets)

  datatype Outcome<T> = Ok(value: T) | Err(error: string)

  datatype ServerUpdate = ServerUpdate(poll: int, stale: int, displayToken: string, adminToken: string,
                                       memoryWarning: int, memoryCritical: int,
                                       storageWarning: int, storageCritical: int)

  datatype SourceUpdate = SourceUpdate(id: string, name: string, baseURL: string, token: string,
                                       tlsMode: string, fingerprint: string, caFile: string)

  datatype Request = UpdateServer(server: ServerUpdate) | UpsertSource(source: SourceUpdate) | DeleteSource(id: string)

  function Clamp(value: int, low: int, high: int): int {
    if value < low then low else if value > high then high else value
  }

  function TokenUpdate(saved: string, token: string): string {
    if TrimSpace(token) != "" then TrimSpace(token) else saved
  }

  function Finished(p: Pair): Pair {
    p.(cfg := WithSecrets(p.cfg, p.secrets))
  }

  /** The settings as updated, thresholds clamped into range and order, blank tokens kept. */
  function ServerFields(p: Pair, u: ServerUpdate): Pair {
    var memory, storage := Clamp(u.memoryWarning, 1, 100), Clamp(u.storageWarning, 1, 100);
    Pair(p.cfg.(server := p.cfg.server.(poll := u.poll, stale := u.stale),
                alerts := Thresholds(memory, Clamp(u.memoryCritical, memory, 100),
                                     storage, Clamp(u.storageCritical, storage, 100))),
         p.secrets.(displayToken := TokenUpdate(p.secrets.displayToken, u.displayToken),
                    adminToken := TokenUpdate(p.secrets.adminToken, u.adminToken)))
  }

  function ServerUpdated(p: Pair, u: ServerUpdate): Outcome<Pair> {
    if u.poll < 5 then Err("poll interval must be at least 5 seconds")
    else if u.stale < u.poll then Err("stale after must be greater than or equal to poll interval")
    else Ok(Finished(ServerFields(p, u)))
  }

  /** The first source with this id, if any. */
  function Find(s: seq<ProxmoxHost>, id: string): (r: Option<nat>)
    ensures r.Some? ==> r.value < |s| && s[r.value].id == id && forall j | 0 <= j < r.value :: s[j].id != id
    ensures r.None? ==> forall j | 0 <= j < |s| :: s[j].id != id
  {
    if s == [] then None
    else if s[0].id == id then Some(0)
    else match Find(s[1..], id)
      case None => None
      case Some(i) => Some(i + 1)
  }

  const NO_SOURCE := ProxmoxHost("", "", "", "", "", Tls("", "", ""))

  function TrimSlashes(s: string): string {
    if s != [] && s[|s| - 1] == '/' then TrimSlashes(s[..|s| - 1]) else s
  }

  function IDFor(u: SourceUpdate): string {
    Or(Sanitized(u.id), Sanitized(u.name))
  }

  function TlsFor(u: SourceUpdate, existing: Tls): Tls {
    Tls(Or(Or(TrimSpace(u.tlsMode), existing.mode), "fingerprint"),
        if TrimSpace(u.fingerprint) == "" && u.tlsMode != "" then ""
        else Or(TrimSpace(u.fingerprint), existing.fingerprint),
        if TrimSpace(u.caFile) == "" && u.tlsMode != "" then "" else Or(TrimSpace(u.caFile), existing.caFile))
  }

  /** A source from its form, blank fields kept from the existing source and the saved token. */
  function SourceFrom(p: Pair, u: SourceUpdate): Outcome<ProxmoxHost> {
    var id := IDFor(u);
    if id == "" then Err("source id or name is required")
    else
      var existing := match Find(p.cfg.sources, id) case None => NO_SOURCE case Some(i) => p.cfg.sources[i];
      var baseURL := Or(TrimSlashes(TrimSpace(u.baseURL)), existing.baseURL);
      var token := Or(TrimSpace(u.token), SecretFor(p.secrets, id));
      var tokenEnv := if token == "" then existing.tokenEnv else "";
      if baseURL == "" then Err("base URL is required")
      else if token == "" && tokenEnv == "" then Err("token is required")
      else Ok(ProxmoxHost(id, Or(Or(TrimSpace(u.name), existing.name), id), baseURL, tokenEnv, token,
                          TlsFor(u, existing.tls)))
  }

  /** The source in its old place, or at the end. */
  function Put(s: seq<ProxmoxHost>, h: ProxmoxHost): seq<ProxmoxHost> {
    match Find(s, h.id)
    case None => s + [h]
    case Some(i) => s[i := h]
  }

  function Upserted(p: Pair, u: SourceUpdate): Outcome<Pair> {
    match SourceFrom(p, u)
    case Err(e) => Err(e)
    case Ok(source) =>
      var tokens := if TrimSpace(u.token) != "" then p.secrets.sourceTokens[source.id := TrimSpace(u.token)]
                    else p.secrets.sourceTokens;
      Ok(Finished(Pair(p.cfg.(sources := Put(p.cfg.sources, source)), p.secrets.(sourceTokens := tokens))))
  }

  /** The sources with other ids, in their order. */
  function Without(s: seq<ProxmoxHost>, id: string): (r: seq<ProxmoxHost>)
    ensures |r| <= |s|
  {
    if s == [] then []
    else
      var front, last := Without(s[..|s| - 1], id), s[|s| - 1];
      if last.id == id then front else front + [last]
  }

  function Deleted(p: Pair, id: string): Outcome<Pair> {
    var id := Sanitized(id);
    if id == "" then Err("source id is required")
    else if Find(p.cfg.sources, id).None? then Err("source was not found")
    else Ok(Finished(Pair(p.cfg.(sources := Without(p.cfg.sources, id)),
                          p.secrets.(sourceTokens := p.secrets.sourceTokens - {id}))))
  }

  function Transformed(p: Pair, r: Request): Outcome<Pair> {
    match r
    case UpdateServer(u) => ServerUpdated(p, u)
    case UpsertSource(u) => Upserted(p, u)
    case DeleteSource(id) => Deleted(p, id)
  }

  // ---- What every request keeps ----

  predicate SecretsOwned(p: Pair) {
    forall id | id in p.secrets.sourceTokens :: HasSource(p.cfg.sources, id)
  }

  predicate HasSource(s: seq<ProxmoxHost>, id: string) {
    exists i | 0 <= i < |s| :: s[i].id == id
  }

  /** A source's token is absent, or the trimmed secret saved under its id. */
  predicate TokensFromSecrets(p: Pair) {
    forall i | 0 <= i < |p.cfg.sources| ::
      p.cfg.sources[i].tokenValue == "" || p.cfg.sources[i].tokenValue == SecretFor(p.secrets, p.cfg.sources[i].id)
  }

  predicate ThresholdsOK(t: Thresholds) {
    1 <= t.memoryWarning <= t.memoryCritical <= 100 && 1 <= t.storageWarning <= t.storageCritical <= 100
  }

  predicate Inv(p: Pair) {
    && DistinctIDs(p.cfg.sources) && SecretsOwned(p) && TokensFromSecrets(p)
    && ThresholdsOK(p.cfg.alerts) && 5 <= p.cfg.server.poll <= p.cfg.server.stale
  }

  /** Changing a source's fields other than its id changes neither order nor ownership. */
  lemma MapKeeps(p: Pair, change: ProxmoxHost -> ProxmoxHost)
    requires forall h :: change(h).id == h.id
    ensures var q := p.(cfg := p.cfg.(sources := Map(p.cfg.sources, change)));
            (DistinctIDs(p.cfg.sources) ==> DistinctIDs(q.cfg.sources)) && (SecretsOwned(p) ==> SecretsOwned(q))
  {
  }

  lemma FinishedKeepsInv(p: Pair)
    requires Inv(p)
    ensures Inv(Finished(p))
  {
    MapKeeps(p, WithSecret(p.secrets));
  }

  /** Deleting drops exactly the sources with the id. */
  lemma {:induction false} WithoutMembers(s: seq<ProxmoxHost>, id: string)
    ensures forall h :: h in Without(s, id) <==> h in s && h.id != id
  {
    if s != [] {
      var front, last := s[..|s| - 1], s[|s| - 1];
      WithoutMembers(front, id);
      assert forall h :: h in s <==> h in front || h == last;
    }
  }

  lemma {:induction false} WithoutDistinct(s: seq<ProxmoxHost>, id: string)
    requires DistinctIDs(s)
    ensures DistinctIDs(Without(s, id))
  {
    if s != [] {
      var front, last := s[..|s| - 1], s[|s| - 1];
      assert forall i | 0 <= i < |front| :: front[i] == s[i];
      WithoutDistinct(front, id);
      WithoutMembers(front, id);
      var r := Without(front, id);
      forall i | 0 <= i < |r| ensures r[i].id != last.id {
        assert r[i] in front;
      }
    }
  }

  lemma PutMeaning(s: seq<ProxmoxHost>, h: ProxmoxHost)
    requires DistinctIDs(s)
    ensures DistinctIDs(Put(s, h)) && h in Put(s, h)
    ensures forall g :: g in Put(s, h) ==> g == h || (g in s && g.id != h.id)
    ensures forall g :: g in s && g.id != h.id ==> g in Put(s, h)
  {
    var r := Put(s, h);
    var i := match Find(s, h.id) case None => |s| case Some(i) => i;
    assert r[i] == h;
    assert forall j | 0 <= j < |s| && j != i :: r[j] == s[j];
  }

  lemma HasSourceIn(s: seq<ProxmoxHost>, h: ProxmoxHost)
    requires h in s
    ensures HasSource(s, h.id)
  {
  }

  lemma DeleteKeepsInv(p: Pair, id: string)
    requires Inv(p)
    ensures Inv(Pair(p.cfg.(sources := Without(p.cfg.sources, id)),
                     p.secrets.(sourceTokens := p.secrets.sourceTokens - {id})))
  {
    var q := Pair(p.cfg.(sources := Without(p.cfg.sources, id)),
                  p.secrets.(sourceTokens := p.secrets.sourceTokens - {id}));
    WithoutMembers(p.cfg.sources, id);
    WithoutDistinct(p.cfg.sources, id);
    forall k | k in q.secrets.sourceTokens ensures HasSource(q.cfg.sources, k) {
      var i :| 0 <= i < |p.cfg.sources| && p.cfg.sources[i].id == k;
      HasSourceIn(q.cfg.sources, p.cfg.sources[i]);
    }
    forall i | 0 <= i < |q.cfg.sources|
      ensures || q.cfg.sources[i].tokenValue == ""
              || q.cfg.sources[i].tokenValue == SecretFor(q.secrets, q.cfg.sources[i].id)
    {
      assert q.cfg.sources[i] in p.cfg.sources;
    }
  }

  lemma PutKeepsInv(p: Pair, h: ProxmoxHost, tokens: map<string, string>)
    requires Inv(p)
    requires forall k | k in tokens :: k == h.id || k in p.secrets.sourceTokens
    requires forall k | k != h.id :: SecretFor(p.secrets.(sourceTokens := tokens), k) == SecretFor(p.secrets, k)
    requires h.tokenValue == SecretFor(p.secrets.(sourceTokens := tokens), h.id)
    ensures Inv(Pair(p.cfg.(sources := Put(p.cfg.sources, h)), p.secrets.(sourceTokens := tokens)))
  {
    var q := Pair(p.cfg.(sources := Put(p.cfg.sources, h)), p.secrets.(sourceTokens := tokens));
    PutMeaning(p.cfg.sources, h);
    forall k | k in q.secrets.sourceTokens ensures HasSource(q.cfg.sources, k) {
      if k == h.id {
        HasSourceIn(q.cfg.sources, h);
      } else {
        var i :| 0 <= i < |p.cfg.sources| && p.cfg.sources[i].id == k;
        HasSourceIn(q.cfg.sources, p.cfg.sources[i]);
      }
    }
    forall i | 0 <= i < |q.cfg.sources|
      ensures || q.cfg.sources[i].tokenValue == ""
              || q.cfg.sources[i].tokenValue == SecretFor(q.secrets, q.cfg.sources[i].id)
    {
      var g := q.cfg.sources[i];
      assert g in q.cfg.sources;
    }
  }

  /** An upserted source carries the trimmed secret that is saved under its id, or none. */
  lemma UpsertKeepsInv(p: Pair, u: SourceUpdate)
    requires Inv(p) && Upserted(p, u).Ok?
    ensures Inv(Upserted(p, u).value)
  {
    hide Inv, Sanitized, TlsFor, TrimSlashes, Put, WithSecrets;
    var h := SourceFrom(p, u).value;
    var tokens := if TrimSpace(u.token) != "" then p.secrets.sourceTokens[h.id := TrimSpace(u.token)]
                  else p.secrets.sourceTokens;
    PutKeepsInv(p, h, tokens);
    FinishedKeepsInv(Pair(p.cfg.(sources := Put(p.cfg.sources, h)), p.secrets.(sourceTokens := tokens)));
  }

  lemma ServerKeepsInv(p: Pair, u: ServerUpdate)
    requires Inv(p) && ServerUpdated(p, u).Ok?
    ensures Inv(ServerUpdated(p, u).value)
  {
    hide WithSecrets;
    assert Inv(ServerFields(p, u));
    FinishedKeepsInv(ServerFields(p, u));
  }

  /** Every request keeps the invariant: distinct source ids, secrets only for sources, tokens that are
      saved secrets, ordered thresholds and ordered intervals. */
  lemma RequestKeepsInv(p: Pair, r: Request)
    requires Inv(p) && Transformed(p, r).Ok?
    ensures Inv(Transformed(p, r).value)
  {
    match r
    case UpdateServer(u) => ServerKeepsInv(p, u);
    case UpsertSource(u) => UpsertKeepsInv(p, u);
    case DeleteSource(id) =>
      DeleteKeepsInv(p, Sanitized(id));
      FinishedKeepsInv(Pair(p.cfg.(sources := Without(p.cfg.sources, Sanitized(id))),
                            p.secrets.(sourceTokens := p.secrets.sourceTokens - {Sanitized(id)})));
  }

  /** Writing the secrets in settles every token that a saved secret stands for. */
  lemma FinishedTokens(p: Pair)
    requires forall h | h in p.cfg.sources ::
               h.tokenValue == "" || h.tokenValue == SecretFor(p.secrets, h.id) || SecretFor(p.secrets, h.id) != ""
    ensures TokensFromSecrets(Finished(p))
  {
    var q := Finished(p);
    forall i | 0 <= i < |q.cfg.sources|
      ensures || q.cfg.sources[i].tokenValue == ""
              || q.cfg.sources[i].tokenValue == SecretFor(q.secrets, q.cfg.sources[i].id)
    {
      assert p.cfg.sources[i] in p.cfg.sources;
    }
  }

  lemma TokensOf(p: Pair)
    requires TokensFromSecrets(p)
    ensures forall h | h in p.cfg.sources :: h.tokenValue == "" || h.tokenValue == SecretFor(p.secrets, h.id)
  {
  }

  lemma PutTokens(p: Pair, h: ProxmoxHost, tokens: map<string, string>)
    requires TokensFromSecrets(p)
    requires forall k | k != h.id :: SecretFor(p.secrets.(sourceTokens := tokens), k) == SecretFor(p.secrets, k)
    requires SecretFor(p.secrets.(sourceTokens := tokens), h.id) == h.tokenValue
    requires SecretFor(p.secrets.(sourceTokens := tokens), h.id) != "" || tokens == p.secrets.sourceTokens
    ensures TokensFromSecrets(Finished(Pair(p.cfg.(sources := Put(p.cfg.sources, h)),
                                            p.secrets.(sourceTokens := tokens))))
  {
    var q := Pair(p.cfg.(sources := Put(p.cfg.sources, h)), p.secrets.(sourceTokens := tokens));
    TokensOf(p);
    forall g | g in q.cfg.sources
      ensures g.tokenValue == "" || g.tokenValue == SecretFor(q.secrets, g.id) || SecretFor(q.secrets, g.id) != ""
    {
      assert g == h || g in p.cfg.sources;
    }
    FinishedTokens(q);
  }

  /** Every request keeps tokens tied to the saved secrets, even where ids are not distinct. */
  lemma RequestKeepsTokens(p: Pair, r: Request)
    requires TokensFromSecrets(p) && Transformed(p, r).Ok?
    ensures TokensFromSecrets(Transformed(p, r).value)
  {
    match r
    case UpdateServer(u) => UpdateKeepsTokens(p, u);
    case UpsertSource(u) => UpsertKeepsTokens(p, u);
    case DeleteSource(id) => DeleteKeepsTokens(p, id);
  }

  lemma UpdateKeepsTokens(p: Pair, u: ServerUpdate)
    requires TokensFromSecrets(p) && ServerUpdated(p, u).Ok?
    ensures TokensFromSecrets(ServerUpdated(p, u).value)
  {
  }

  lemma UpsertKeepsTokens(p: Pair, u: SourceUpdate)
    requires TokensFromSecrets(p) && Upserted(p, u).Ok?
    ensures TokensFromSecrets(Upserted(p, u).value)
  {
    hide TokensFromSecrets, Sanitized, TlsFor, TrimSlashes, Put, Finished;
    var h := SourceFrom(p, u).value;
    var tokens := if TrimSpace(u.token) != "" then p.secrets.sourceTokens[h.id := TrimSpace(u.token)]
                  else p.secrets.sourceTokens;
    PutTokens(p, h, tokens);
  }

  lemma DeleteKeepsTokens(p: Pair, id: string)
    requires TokensFromSecrets(p) && Deleted(p, id).Ok?
    ensures TokensFromSecrets(Deleted(p, id).value)
  {
    var clean := Sanitized(id);
    var q := Pair(p.cfg.(sources := Without(p.cfg.sources, clean)),
                  p.secrets.(sourceTokens := p.secrets.sourceTokens - {clean}));
    WithoutMembers(p.cfg.sources, clean);
    TokensOf(p);
    FinishedTokens(q);
  }

  // ---- What requests change, and what undoes them ----

  /** Values that are in range and in order are taken as they are. */
  lemma ServerTakesValidInput(p: Pair, u: ServerUpdate)
    requires 5 <= u.poll <= u.stale
    requires ThresholdsOK(Thresholds(u.memoryWarning, u.memoryCritical, u.storageWarning, u.storageCritical))
    ensures ServerUpdated(p, u).Ok?
    ensures var c := ServerUpdated(p, u).value.cfg;
            && c.alerts == Thresholds(u.memoryWarning, u.memoryCritical, u.storageWarning, u.storageCritical)
            && c.server.poll == u.poll && c.server.stale == u.stale
  {
  }

  /** An upsert touches one source and one secret: the token it is given, or the one already saved. */
  lemma UpsertChangesOne(p: Pair, u: SourceUpdate)
    requires DistinctIDs(p.cfg.sources) && Upserted(p, u).Ok?
    ensures var q, id := Upserted(p, u).value, IDFor(u);
            && HasSource(q.cfg.sources, id)
            && (forall i | 0 <= i < |p.cfg.sources| && p.cfg.sources[i].id != id ::
                  i < |q.cfg.sources| && q.cfg.sources[i] == WithSecret(q.secrets)(p.cfg.sources[i]))
            && SecretFor(q.secrets, id) == Or(TrimSpace(u.token), SecretFor(p.secrets, id))
            && (forall k | k != id :: SecretFor(q.secrets, k) == SecretFor(p.secrets, k))
  {
    hide TlsFor, TrimSlashes, Sanitized;
    var h := SourceFrom(p, u).value;
    PutMeaning(p.cfg.sources, h);
    var q := Upserted(p, u).value;
    var i := match Find(p.cfg.sources, h.id) case None => |p.cfg.sources| case Some(i) => i;
    assert q.cfg.sources[i].id == h.id;
  }

  /** An upsert of a source with a new id appends it. */
  lemma UpsertAppends(p: Pair, u: SourceUpdate) returns (h: ProxmoxHost)
    requires Upserted(p, u).Ok? && Find(p.cfg.sources, IDFor(u)).None? && IDFor(u) !in p.secrets.sourceTokens
    ensures var q := Upserted(p, u).value;
            && h.id == IDFor(u)
            && q.cfg == WithSecrets(p.cfg, q.secrets).(sources := Map(p.cfg.sources, WithSecret(q.secrets)) + [h])
            && q.secrets == p.secrets.(sourceTokens := q.secrets.sourceTokens)
            && q.secrets.sourceTokens - {h.id} == p.secrets.sourceTokens
  {
    hide TlsFor, TrimSlashes, Sanitized;
    var source, q := SourceFrom(p, u).value, Upserted(p, u).value;
    h := WithSecret(q.secrets)(source);
    assert q.cfg.sources == Map(p.cfg.sources, WithSecret(q.secrets)) + [h];
  }

  /** Deleting a source that an upsert has just added gives back the config and the secrets. */
  lemma DeleteUndoesUpsert(p: Pair, u: SourceUpdate)
    requires Upserted(p, u).Ok?
    requires Find(p.cfg.sources, IDFor(u)).None? && IDFor(u) !in p.secrets.sourceTokens
    ensures Deleted(Upserted(p, u).value, IDFor(u)) == Ok(Finished(p))
  {
    hide Sanitized, Upserted, WithSecret, Without;
    var id := IDFor(u);
    var h := UpsertAppends(p, u);
    CleanID(u);
    assert id != "" by { UpsertNamed(p, u); }
    var q := Upserted(p, u).value;
    assert q.cfg.sources[|p.cfg.sources|].id == id;
    WithoutNew(p, q.secrets, h, id);
    OtherSecrets(p, q.secrets, id);
    SecretsAgain(p, q.secrets, id);
  }

  lemma UpsertNamed(p: Pair, u: SourceUpdate)
    requires Upserted(p, u).Ok?
    ensures IDFor(u) != ""
  {
  }

  lemma OtherSecrets(p: Pair, t: Secrets, id: string)
    requires t.sourceTokens - {id} == p.secrets.sourceTokens
    ensures forall k | k != id :: SecretFor(t, k) == SecretFor(p.secrets, k)
  {
    forall k | k != id ensures SecretFor(t, k) == SecretFor(p.secrets, k) {
      assert k in t.sourceTokens <==> k in t.sourceTokens - {id};
    }
  }

  lemma CleanID(u: SourceUpdate)
    ensures Sanitized(IDFor(u)) == IDFor(u)
  {
    SanitizedIdempotent(u.id);
    SanitizedIdempotent(u.name);
  }

  lemma {:induction false} WithoutAbsent(s: seq<ProxmoxHost>, id: string)
    requires forall i | 0 <= i < |s| :: s[i].id != id
    ensures Without(s, id) == s
  {
    if s != [] { WithoutAbsent(s[..|s| - 1], id); }
  }

  lemma WithoutNew(p: Pair, t: Secrets, h: ProxmoxHost, id: string)
    requires h.id == id && forall i | 0 <= i < |p.cfg.sources| :: p.cfg.sources[i].id != id
    ensures Without(Map(p.cfg.sources, WithSecret(t)) + [h], id) == Map(p.cfg.sources, WithSecret(t))
  {
    var others := Map(p.cfg.sources, WithSecret(t));
    WithoutAbsent(others, id);
    assert (others + [h])[..|others|] == others;
  }

  /** Secrets that differ in a foreign id only leave the same tokens behind. */
  lemma SecretsAgain(p: Pair, t: Secrets, id: string)
    requires forall k | k != id :: SecretFor(t, k) == SecretFor(p.secrets, k)
    requires forall i | 0 <= i < |p.cfg.sources| :: p.cfg.sources[i].id != id
    ensures Map(Map(p.cfg.sources, WithSecret(t)), WithSecret(p.secrets)) == Map(p.cfg.sources, WithSecret(p.secrets))
  {
  }

  // ---- Crash safety of the requests ----

  /** Requests that change no token: deletions, updates and upserts whose token fields are blank. */
  predicate KeepsTokens(r: Request) {
    match r
    case UpdateServer(u) => TrimSpace(u.displayToken) == "" && TrimSpace(u.adminToken) == ""
    case UpsertSource(u) => TrimSpace(u.token) == ""
    case DeleteSource(_) => true
  }

  /** The config that apply saves. */
  function Prepared(p: Pair): Config {
    WithSecrets(Defaulted(p.cfg), p.secrets)
  }

  lemma DeletedTokens(p: Pair, id: string)
    requires Deleted(p, id).Ok?
    ensures TokensAgree(Prepared(Deleted(p, id).value), p.secrets, Deleted(p, id).value.secrets)
  {
    hide DefaultServer, DefaultThresholds;
    var q, clean := Deleted(p, id).value, Sanitized(id);
    var left := Without(p.cfg.sources, clean);
    WithoutMembers(p.cfg.sources, clean);
    forall i | 0 <= i < |left| ensures left[i].id != clean {
      assert left[i] in left;
    }
    var c := Prepared(q);
    assert |c.sources| == |left| && forall i | 0 <= i < |left| :: c.sources[i].id == left[i].id;
  }

  lemma TokensKept(p: Pair, r: Request)
    requires Transformed(p, r).Ok? && KeepsTokens(r)
    ensures TokensAgree(Prepared(Transformed(p, r).value), p.secrets, Transformed(p, r).value.secrets)
  {
    hide Prepared, SourceFrom, Put, Find, Without, Sanitized;
    if r.DeleteSource? {
      DeletedTokens(p, r.id);
    }
  }

  /** Wherever the save of such a request stops, a later load gives the config from before the request
      or the one from after it. */
  lemma QuietRequestIsAtomic(was: Files, p: Pair, r: Request, at: Step)
    requires SoundFiles(was) && SecretsIn(was) == p.secrets
    requires Transformed(p, r).Ok? && KeepsTokens(r)
    ensures var q := Transformed(p, r).value;
            var now := Loaded(StoppedAt(was, Prepared(q), q.secrets, at));
            now == Loaded(was) || now == Loaded(Written(Prepared(q), q.secrets))
  {
    hide Transformed, KeepsTokens, Loaded, StoppedAt, Prepared;
    TokensKept(p, r);
    var q := Transformed(p, r).value;
    AtomicSave(was, Prepared(q), q.secrets, at);
  }

  /** A save of new names with a new token for a source tears when it stops between the renames. */
  lemma NameAndTokenTear(was: Files, q: Pair)
    requires SoundFiles(was) && |ConfigIn(was).sources| == |q.cfg.sources| == 1
    requires ConfigIn(was).sources[0].name != q.cfg.sources[0].name
    requires SecretFor(SecretsIn(was), q.cfg.sources[0].id) != SecretFor(q.secrets, q.cfg.sources[0].id)
    ensures var now := Loaded(StoppedAt(was, Prepared(q), q.secrets, WriteSecrets));
            now != Loaded(was) && now != Loaded(Written(Prepared(q), q.secrets))
  {
    hide Loaded, DefaultServer, DefaultThresholds, SecretFor;
    CrashLoads(was, Prepared(q), q.secrets);
    assert Prepared(q).sources[0].id == q.cfg.sources[0].id;
    assert FileOf(Prepared(q)).sources[0].name == q.cfg.sources[0].name;
  }

  /** A request that changes a token is not atomic: renaming a source and changing its token in one
      upsert can be read back as the new name with the old token. */
  lemma TokenChangeTears() returns (p: Pair, r: Request)
    ensures Inv(p) && Transformed(p, r).Ok?
    ensures var q := Transformed(p, r).value;
            var was := Written(p.cfg, p.secrets);
            var now := Loaded(StoppedAt(was, Prepared(q), q.secrets, WriteSecrets));
            now != Loaded(was) && now != Loaded(Written(Prepared(q), q.secrets))
  {
    hide Loaded, StoppedAt, Prepared, Upserted;
    var h := ProxmoxHost("a", "A", "u", "", "", Tls("system", "", ""));
    p := Pair(Config(Server("0.0.0.0", 8765, "D", "", "E", "", 10, 45), [h], Thresholds(85, 95, 80, 90), []),
              Secrets("", "", map["a" := "t"]));
    var u := SourceUpdate("a", "B", "", "v", "", "", "");
    r := UpsertSource(u);
    assert p.cfg.sources[0].id == "a" && HasSource(p.cfg.sources, "a");
    UpsertedTokens(p, u);
    FilesAreTokenless(p.cfg);
    assert Trimmed("t") && Trimmed("v") && "t" != "v";
    NameAndTokenTear(Written(p.cfg, p.secrets), Upserted(p, u).value);
  }

  lemma UpsertedTokens(p: Pair, u: SourceUpdate)
    requires |p.cfg.sources| == 1 && p.cfg.sources[0].id == "a" && p.cfg.sources[0].baseURL == "u"
    requires u == SourceUpdate("a", "B", "", "v", "", "", "")
    ensures Upserted(p, u).Ok?
    ensures var q := Upserted(p, u).value;
            && |q.cfg.sources| == 1 && q.cfg.sources[0].id == "a" && q.cfg.sources[0].name == "B"
            && q.secrets == p.secrets.(sourceTokens := p.secrets.sourceTokens["a" := "v"])
  {
    assert Trimmed("a") && Trimmed("B") && Trimmed("v") && Trimmed("");
    assert Sanitized("a") == "a" by {
      assert Tidy("a");
      SanitizedIdempotent("a");
    }
  }

  // ---- What a restart after a crash meets ----

  lemma PreparedKeepsInv(p: Pair)
    requires Inv(p)
    ensures Inv(Pair(Prepared(p), p.secrets))
  {
    hide WithSecrets;
    var q := p.(cfg := Defaulted(p.cfg));
    MapKeeps(p, DefaultSource);
    assert Inv(q);
    FinishedKeepsInv(q);
  }

  lemma SameOwners(p: Pair, t: seq<ProxmoxHost>)
    requires |t| == |p.cfg.sources| && forall i | 0 <= i < |t| :: t[i].id == p.cfg.sources[i].id
    ensures SecretsOwned(p) <==> SecretsOwned(p.(cfg := p.cfg.(sources := t)))
    ensures DistinctIDs(p.cfg.sources) <==> DistinctIDs(t)
  {
    forall id ensures HasSource(p.cfg.sources, id) <==> HasSource(t, id) {
      if i :| 0 <= i < |t| && t[i].id == id { assert p.cfg.sources[i].id == id; }
      if i :| 0 <= i < |t| && p.cfg.sources[i].id == id { assert t[i].id == id; }
    }
  }

  /** A well-formed config that is saved and loaded with some secrets meets the invariant exactly when
      it owns those secrets. */
  lemma LoadedInv(c: Config, s: Secrets)
    requires DistinctIDs(c.sources) && ThresholdsOK(c.alerts) && 5 <= c.server.poll <= c.server.stale
    ensures Inv(Pair(WithSecrets(FileOf(c), s), s)) <==> SecretsOwned(Pair(c, s))
  {
    hide SecretsOwned, DistinctIDs;
    var loaded := WithSecrets(FileOf(c), s);
    SameOwners(Pair(c, s), loaded.sources);
    SameSources(loaded, c.(sources := loaded.sources), s);
    assert TokensFromSecrets(Pair(loaded, s));
  }

  lemma SameSources(c: Config, d: Config, s: Secrets)
    requires c.sources == d.sources
    ensures SecretsOwned(Pair(c, s)) <==> SecretsOwned(Pair(d, s))
  {
  }

  /** The request deletes a source whose secret is saved. */
  predicate DropsSecret(p: Pair, r: Request) {
    r.DeleteSource? && Sanitized(r.id) in p.secrets.sourceTokens
  }

  lemma OwnersAfter(p: Pair, r: Request, k: string)
    requires Transformed(p, r).Ok?
    ensures HasSource(Transformed(p, r).value.cfg.sources, k) <==>
              if r.DeleteSource? then HasSource(p.cfg.sources, k) && k != Sanitized(r.id)
              else HasSource(p.cfg.sources, k) || (r.UpsertSource? && k == IDFor(r.source))
  {
    hide Sanitized, TlsFor, TrimSlashes, TrimSpace;
    var q := Transformed(p, r).value;
    match r
    case UpdateServer(u) =>
      SameHas(p.cfg.sources, q.cfg.sources, k);
    case UpsertSource(u) =>
      var h := SourceFrom(p, u).value;
      PutHas(p.cfg.sources, h, k);
      SameHas(Put(p.cfg.sources, h), q.cfg.sources, k);
    case DeleteSource(id) =>
      WithoutHas(p.cfg.sources, Sanitized(id), k);
      SameHas(Without(p.cfg.sources, Sanitized(id)), q.cfg.sources, k);
  }

  lemma SameHas(s: seq<ProxmoxHost>, t: seq<ProxmoxHost>, k: string)
    requires |s| == |t| && forall i | 0 <= i < |s| :: s[i].id == t[i].id
    ensures HasSource(s, k) <==> HasSource(t, k)
  {
    if i :| 0 <= i < |s| && s[i].id == k { assert t[i].id == k; }
    if i :| 0 <= i < |t| && t[i].id == k { assert s[i].id == k; }
  }

  lemma PutHas(s: seq<ProxmoxHost>, h: ProxmoxHost, k: string)
    ensures HasSource(Put(s, h), k) <==> HasSource(s, k) || k == h.id
  {
    var r := Put(s, h);
    var at := match Find(s, h.id) case None => |s| case Some(i) => i;
    assert r[at] == h;
    assert forall j | 0 <= j < |s| && j != at :: r[j] == s[j];
    if j :| 0 <= j < |s| && s[j].id == k { assert r[j].id == k; }
  }

  lemma WithoutHas(s: seq<ProxmoxHost>, id: string, k: string)
    ensures HasSource(Without(s, id), k) <==> HasSource(s, k) && k != id
  {
    WithoutMembers(s, id);
    if HasSource(s, k) && k != id {
      var i :| 0 <= i < |s| && s[i].id == k;
      HasSourceIn(Without(s, id), s[i]);
    }
    if i :| 0 <= i < |Without(s, id)| && Without(s, id)[i].id == k {
      assert Without(s, id)[i] in s;
      HasSourceIn(s, Without(s, id)[i]);
    }
  }

  /** The new config owns the old secrets unless the request drops one. */
  lemma OldSecretsOwned(p: Pair, r: Request)
    requires Inv(p) && Transformed(p, r).Ok?
    ensures SecretsOwned(Pair(Prepared(Transformed(p, r).value), p.secrets)) <==> !DropsSecret(p, r)
  {
    hide Sanitized, Transformed, Defaulted;
    var q := Transformed(p, r).value;
    var c := Prepared(q);
    forall k ensures HasSource(c.sources, k) <==> HasSource(q.cfg.sources, k) {
      PreparedHas(q, k);
    }
    forall k | k in p.secrets.sourceTokens
      ensures HasSource(c.sources, k) <==> !(r.DeleteSource? && k == Sanitized(r.id))
    {
      OwnersAfter(p, r, k);
    }
  }

  lemma PreparedHas(p: Pair, k: string)
    ensures HasSource(Prepared(p).sources, k) <==> HasSource(p.cfg.sources, k)
  {
    SameHas(p.cfg.sources, Prepared(p).sources, k);
  }

  /** A request that crashes at any step leaves files whose load meets the invariant again, except
      exactly when a deletion stops between the renames while a secret of its source is saved: that
      secret is then left without a source. */
  lemma CrashKeepsInv(was: Files, p: Pair, r: Request, at: Step)
    requires SecretsIn(was) == p.secrets && Inv(Pair(Loaded(was), p.secrets))
    requires Inv(p) && Transformed(p, r).Ok?
    ensures var q := Transformed(p, r).value;
            var now := StoppedAt(was, Prepared(q), q.secrets, at);
            Inv(Pair(Loaded(now), SecretsIn(now))) <==> !(DropsSecret(p, r) && at in {WriteSecrets, RenameSecrets})
  {
    hide Inv, Transformed, Prepared, DropsSecret, SecretsOwned;
    var q := Transformed(p, r).value;
    RequestKeepsInv(p, r);
    PreparedKeepsInv(q);
    InvParts(Pair(Prepared(q), q.secrets));
    FilesAreTokenless(Prepared(q));
    if at in {WriteSecrets, RenameSecrets} {
      LoadedInv(Prepared(q), p.secrets);
      OldSecretsOwned(p, r);
    } else if at.Done? {
      LoadedInv(Prepared(q), q.secrets);
    }
  }

  lemma InvParts(p: Pair)
    requires Inv(p)
    ensures DistinctIDs(p.cfg.sources) && ThresholdsOK(p.cfg.alerts) && 5 <= p.cfg.server.poll <= p.cfg.server.stale
    ensures SecretsOwned(p) && TokensFromSecrets(p)
  {
  }
}
