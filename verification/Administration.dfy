/** What a request does to config, secrets, files and collector together, one request after the other
    and with requests interleaved. */
module Administration {
  import opened Config
  import opened ConfigStore
  import opened Forms
  import opened Health
  import opened Requests
  import opened Text
  import opened Wrappers

  /** What is fixed while the manager runs: the environment, the TLS settings for which no transport can
      be built, and whether the bridge serves mock data. */
  datatype World = World(env: map<string, string>, unusable: set<Tls>, mock: bool)

  datatype Client = Client(id: string, name: string, baseURL: string, token: string, tls: Tls)

  datatype Collector = Mock | Setup | Bridge(clients: seq<Client>, alerts: Thresholds, pinned: seq<Pinned>)

  function ClientFor(h: ProxmoxHost, env: map<string, string>): Client {
    Client(h.id, h.name, TrimSlashes(h.baseURL), NormalizeToken(TokenOf(h, env)), h.tls)
  }

  function Clients(s: seq<ProxmoxHost>, env: map<string, string>): (r: seq<Client>)
    ensures |r| == |s| && forall i | 0 <= i < |s| :: r[i] == ClientFor(s[i], env)
  {
    seq(|s|, i requires 0 <= i < |s| => ClientFor(s[i], env))
  }

  predicate Usable(s: seq<ProxmoxHost>, unusable: set<Tls>) {
    forall i | 0 <= i < |s| :: s[i].tls !in unusable
  }

  /** The collector a config asks for, if it can be built. */
  function CollectorFor(c: Config, w: World): Option<Collector> {
    if w.mock then Some(Mock)
    else if c.sources == [] then Some(Setup)
    else if ValidConfig(c, w.env, false) && Usable(c.sources, w.unusable)
      then Some(Bridge(Clients(c.sources, w.env), c.alerts, c.pinned))
    else None
  }

  /** Which collector a config gets: mock data in mock mode, the setup page without sources, and the real
      one exactly when port, display token, ids, names, addresses, tokens and TLS settings are all there. */
  lemma CollectorExactly(c: Config, w: World)
    ensures w.mock <==> CollectorFor(c, w) == Some(Mock)
    ensures !w.mock ==> (c.sources == [] <==> CollectorFor(c, w) == Some(Setup))
    ensures CollectorFor(c, w).Some? && CollectorFor(c, w).value.Bridge? <==>
              && !w.mock && c.sources != [] && 1 <= c.server.port <= 65535
              && (c.server.displayValue != "" || Present(w.env, c.server.displayEnv))
              && (forall i, j | 0 <= i < j < |c.sources| :: c.sources[i].id != c.sources[j].id)
              && forall i | 0 <= i < |c.sources| :: Complete(c.sources[i], w)
  {
    forall i | 0 <= i < |c.sources|
      ensures SourceComplete(c.sources[i], w.env) && c.sources[i].tls !in w.unusable <==> Complete(c.sources[i], w)
    {
    }
    hide SourceComplete, Complete, Present;
  }

  predicate Present(env: map<string, string>, name: string) {
    name in env && env[name] != ""
  }

  predicate Complete(h: ProxmoxHost, w: World) {
    && h.id != "" && h.name != "" && h.baseURL != ""
    && (h.tokenValue != "" || (h.tokenEnv != "" && Present(w.env, h.tokenEnv)))
    && (h.tls.mode in {"system", "insecure"} || (h.tls.mode == "fingerprint" && h.tls.fingerprint != "")
        || (h.tls.mode == "ca_file" && h.tls.caFile != ""))
    && h.tls !in w.unusable
  }

  method CollectorForConfig(c: Config, w: World) returns (collector: Option<Collector>)
    ensures collector == CollectorFor(c, w)
  {
    if w.mock {
      return Some(Mock);
    }
    if |c.sources| == 0 {
      return Some(Setup);
    }
    hide ValidConfig, ClientFor;
    var error := Validate(c, w.env, false);
    if error.Some? {
      return None;
    }
    var clients: seq<Client> := [];
    for i := 0 to |c.sources|
      invariant clients == Clients(c.sources[..i], w.env)
      invariant Usable(c.sources[..i], w.unusable)
    {
      if c.sources[i].tls in w.unusable {
        assert !Usable(c.sources, w.unusable);
        return None;
      }
      clients := clients + [ClientFor(c.sources[i], w.env)];
    }
    assert c.sources[..|c.sources|] == c.sources;
    return Some(Bridge(clients, c.alerts, c.pinned));
  }

  /** Everything that one successful request changes. The cache's intervals are in seconds. */
  datatype Managed = Managed(cfg: Config, secrets: Secrets, files: Files, collector: Collector, poll: int, stale: int)

  function PairOf(m: Managed): Pair {
    Pair(m.cfg, m.secrets)
  }

  /** What is published once the save has blanked the sources' tokens in the shared array. */
  function Published(p: Pair): Pair {
    Pair(BlankSources(Prepared(p)), p.secrets)
  }

  /** The manager once p has been applied in full. */
  function Installed(p: Pair, collector: Collector): Managed {
    var c := Prepared(p);
    Managed(BlankSources(c), p.secrets, Written(c, p.secrets), collector, c.server.poll, c.server.stale)
  }

  /** Applying p, with a save that fails at a step or is Done. */
  function Applied(m: Managed, p: Pair, w: World, failing: Step): Managed {
    match CollectorFor(Prepared(p), w)
    case None => m
    case Some(collector) =>
      if failing.Done? then Installed(p, collector)
      else m.(files := StoppedAt(m.files, Prepared(p), p.secrets, failing))
  }

  function Handled(m: Managed, r: Request, w: World, failing: Step): Managed {
    match Transformed(PairOf(m), r)
    case Err(_) => m
    case Ok(p) => Applied(m, p, w, failing)
  }

  /** The request is well formed, its config valid, and the save goes through. */
  predicate Succeeds(m: Managed, r: Request, w: World, failing: Step) {
    match Transformed(PairOf(m), r)
    case Err(_) => false
    case Ok(p) => CollectorFor(Prepared(p), w).Some? && failing.Done?
  }

  lemma PreparedTwice(p: Pair)
    ensures Defaulted(Prepared(p)) == Prepared(p)
    ensures FileOf(BlankSources(Prepared(p))) == FileOf(Prepared(p))
    ensures Blanked(Prepared(p)) == FileOf(Prepared(p))
  {
    assert Defaulted(Prepared(p)).sources == Prepared(p).sources;
    assert FileOf(BlankSources(Prepared(p))).sources == FileOf(Prepared(p)).sources;
  }

  /** After every successful request a load of the files gives the published config and secrets, once
      the secrets are written back into it. */
  lemma LoadMatchesPublished(p: Pair, collector: Collector)
    ensures var m := Installed(p, collector);
            Loaded(m.files) == WithSecrets(m.cfg, m.secrets) && SecretsIn(m.files) == m.secrets
  {
    LoadAfterSave(Prepared(p), p.secrets);
    PreparedTwice(p);
    assert WithSecrets(FileOf(Prepared(p)), p.secrets).sources
        == WithSecrets(BlankSources(Prepared(p)), p.secrets).sources;
  }

  /** Writing the secrets back into the published config restores what the collector was built from. */
  lemma SecretsRestore(p: Pair)
    requires TokensFromSecrets(p)
    ensures WithSecrets(Published(p).cfg, p.secrets) == Prepared(p)
  {
    var a, b := WithSecrets(Published(p).cfg, p.secrets), Prepared(p);
    forall i | 0 <= i < |b.sources| ensures a.sources[i] == b.sources[i] {
      assert Defaulted(p.cfg).sources[i].id == p.cfg.sources[i].id;
      assert Defaulted(p.cfg).sources[i].tokenValue == p.cfg.sources[i].tokenValue;
    }
    assert a.sources == b.sources;
  }

  lemma PublishedKeepsInv(p: Pair)
    requires Inv(p)
    ensures Inv(Published(p))
  {
    hide WithSecrets;
    var q := p.(cfg := Defaulted(p.cfg));
    MapKeeps(p, DefaultSource);
    assert Inv(q);
    FinishedKeepsInv(q);
    MapKeeps(Finished(q), BlankSource);
    assert Finished(q).cfg == Prepared(p);
  }

  lemma PublishedTokens(p: Pair)
    ensures TokensFromSecrets(Published(p))
  {
  }

  // ---- Starts ----

  /** The collector of a config, or the setup collector when it cannot be built. */
  function CollectorOrSetup(c: Config, w: World): Collector {
    match CollectorFor(c, w)
    case None => Setup
    case Some(collector) => collector
  }

  /** The manager as the bridge starts it: on the mock config, or on what it has loaded. */
  function Started(files: Files, w: World): Managed {
    var c := if w.mock then MOCK_CONFIG else Loaded(files);
    Managed(c, SecretsIn(files), files, CollectorOrSetup(c, w), c.server.poll, c.server.stale)
  }

  // ---- What holds in memory, and between memory and files ----

  /** Tokens, collector and intervals are those of the published config and secrets, and the secrets
      file holds these secrets. */
  ghost predicate Agrees(m: Managed, w: World) {
    && TokensFromSecrets(PairOf(m))
    && m.collector == CollectorOrSetup(WithSecrets(m.cfg, m.secrets), w)
    && m.poll == m.cfg.server.poll && m.stale == m.cfg.server.stale
    && SoundFiles(m.files) && SecretsIn(m.files) == m.secrets
  }

  /** Moreover, a load of the files gives the published config with the secrets in it. */
  ghost predicate InStep(m: Managed, w: World) {
    Agrees(m, w) && Loaded(m.files) == WithSecrets(m.cfg, m.secrets)
  }

  lemma SecretsTwice(c: Config, s: Secrets)
    ensures WithSecrets(WithSecrets(c, s), s) == WithSecrets(c, s)
  {
    assert WithSecrets(WithSecrets(c, s), s).sources == WithSecrets(c, s).sources;
  }

  lemma LoadedTokens(files: Files)
    requires SoundFiles(files)
    ensures TokensFromSecrets(Pair(Loaded(files), SecretsIn(files)))
  {
    ReadTokenless(files);
    var c := ConfigIn(files);
    assert forall i | 0 <= i < |c.sources| :: c.sources[i] == BlankSource(c.sources[i]);
  }

  /** Every start agrees, whatever the files say: also on a config for which no collector can be built,
      and in mock mode, where only the config is not that of the files. */
  lemma StartAgrees(files: Files, w: World)
    requires SoundFiles(files)
    ensures Agrees(Started(files, w), w)
    ensures !w.mock ==> InStep(Started(files, w), w)
  {
    hide ValidConfig, Usable, Loaded;
    if !w.mock {
      LoadedTokens(files);
      LoadedOnce(files);
    }
  }

  lemma LoadedOnce(files: Files)
    ensures WithSecrets(Loaded(files), SecretsIn(files)) == Loaded(files)
  {
    SecretsTwice(ConfigIn(files), SecretsIn(files));
  }

  lemma InstalledInStep(p: Pair, collector: Collector, w: World)
    requires TokensFromSecrets(p) && CollectorFor(Prepared(p), w) == Some(collector)
    ensures InStep(Installed(p, collector), w)
  {
    hide CollectorFor, Loaded;
    PublishedTokens(p);
    LoadMatchesPublished(p, collector);
    FilesAreTokenless(Prepared(p));
    SecretsRestore(p);
  }

  // ---- Serialised runs ----

  datatype Attempt = Attempt(request: Request, failing: Step)

  function Serial(m: Managed, attempts: seq<Attempt>, w: World): Managed {
    if attempts == [] then m
    else
      var last := attempts[|attempts| - 1];
      Handled(Serial(m, attempts[..|attempts| - 1], w), last.request, w, last.failing)
  }

  lemma HandledKeepsInv(m: Managed, r: Request, w: World, failing: Step)
    requires Inv(PairOf(m))
    ensures Inv(PairOf(Handled(m, r, w, failing)))
  {
    hide Inv, CollectorFor, Transformed;
    if Transformed(PairOf(m), r).Ok? {
      RequestKeepsInv(PairOf(m), r);
      PublishedKeepsInv(Transformed(PairOf(m), r).value);
    }
  }

  /** In every serialised run, torn saves and rejected requests included, the published config and
      secrets keep the invariant. */
  lemma {:induction false} SerialKeepsInv(m: Managed, attempts: seq<Attempt>, w: World)
    requires Inv(PairOf(m))
    ensures Inv(PairOf(Serial(m, attempts, w)))
  {
    if attempts != [] {
      hide Inv, Handled;
      var front, last := attempts[..|attempts| - 1], attempts[|attempts| - 1];
      SerialKeepsInv(m, front, w);
      HandledKeepsInv(Serial(m, front, w), last.request, w, last.failing);
    }
  }

  lemma SuccessInStep(m: Managed, r: Request, w: World, failing: Step)
    requires TokensFromSecrets(PairOf(m)) && Succeeds(m, r, w, failing)
    ensures InStep(Handled(m, r, w, failing), w)
  {
    hide InStep, CollectorFor, Transformed, TokensFromSecrets, Installed;
    var p := Transformed(PairOf(m), r).value;
    RequestKeepsTokens(PairOf(m), r);
    InstalledInStep(p, CollectorFor(Prepared(p), w).value, w);
  }

  /** A request that does not succeed leaves everything but the files as it was, and the files too
      unless its save stopped between the renames. */
  lemma FailureKeepsRest(m: Managed, r: Request, w: World, failing: Step)
    requires !Succeeds(m, r, w, failing)
    ensures var n := Handled(m, r, w, failing);
            && n == m.(files := n.files) && SecretsIn(n.files) == SecretsIn(m.files)
            && (SoundFiles(m.files) ==> SoundFiles(n.files))
            && (failing !in {WriteSecrets, RenameSecrets} ==> n == m)
  {
    hide Transformed, CollectorFor;
    var p := Transformed(PairOf(m), r);
    if p.Ok? {
      FilesAreTokenless(Prepared(p.value));
    }
  }

  lemma HandledAgrees(m: Managed, r: Request, w: World, failing: Step)
    requires Agrees(m, w)
    ensures Agrees(Handled(m, r, w, failing), w)
    ensures InStep(m, w) && failing !in {WriteSecrets, RenameSecrets} ==> InStep(Handled(m, r, w, failing), w)
  {
    hide CollectorOrSetup, TokensFromSecrets, Loaded, Handled, Succeeds, SoundFiles, SecretsIn, WithSecrets;
    if Succeeds(m, r, w, failing) {
      SuccessInStep(m, r, w, failing);
    } else {
      FailureKeepsRest(m, r, w, failing);
    }
  }

  /** In every serialised run from a manager that agrees, whatever requests fail and wherever their
      saves stop, tokens, collector and intervals stay those of the published config and secrets, and
      the secrets file never holds other secrets than the published ones. */
  lemma {:induction false} SerialAgrees(m: Managed, attempts: seq<Attempt>, w: World)
    requires Agrees(m, w)
    ensures Agrees(Serial(m, attempts, w), w)
  {
    if attempts != [] {
      hide Agrees, Handled;
      var front, last := attempts[..|attempts| - 1], attempts[|attempts| - 1];
      SerialAgrees(m, front, w);
      HandledAgrees(Serial(m, front, w), last.request, w, last.failing);
    }
  }

  lemma HandledKeepsTokens(m: Managed, r: Request, w: World, failing: Step)
    requires TokensFromSecrets(PairOf(m))
    ensures TokensFromSecrets(PairOf(Handled(m, r, w, failing)))
  {
    hide TokensFromSecrets, CollectorFor, Transformed, Published, Prepared;
    if Transformed(PairOf(m), r).Ok? {
      PublishedTokens(Transformed(PairOf(m), r).value);
      PublishedPair(Transformed(PairOf(m), r).value);
    }
  }

  lemma PublishedPair(p: Pair)
    ensures forall collector :: PairOf(Installed(p, collector)) == Published(p)
  {
  }

  lemma {:induction false} SerialKeepsTokens(m: Managed, attempts: seq<Attempt>, w: World)
    requires TokensFromSecrets(PairOf(m))
    ensures TokensFromSecrets(PairOf(Serial(m, attempts, w)))
  {
    if attempts != [] {
      hide TokensFromSecrets, Handled;
      var front, last := attempts[..|attempts| - 1], attempts[|attempts| - 1];
      SerialKeepsTokens(m, front, w);
      HandledKeepsTokens(Serial(m, front, w), last.request, w, last.failing);
    }
  }

  /** No save stops between the two renames. */
  predicate SavesWhole(attempts: seq<Attempt>) {
    forall i | 0 <= i < |attempts| :: attempts[i].failing !in {WriteSecrets, RenameSecrets}
  }

  /** Requests of which no save is torn keep a manager in step, whatever else makes them fail. */
  lemma {:induction false} SerialStaysInStep(m: Managed, attempts: seq<Attempt>, w: World)
    requires InStep(m, w) && SavesWhole(attempts)
    ensures InStep(Serial(m, attempts, w), w)
  {
    if attempts != [] {
      hide InStep, Agrees, Handled;
      var front, last := attempts[..|attempts| - 1], attempts[|attempts| - 1];
      SerialStaysInStep(m, front, w);
      InStepAgrees(Serial(m, front, w), w);
      HandledAgrees(Serial(m, front, w), last.request, w, last.failing);
    }
  }

  lemma InStepAgrees(m: Managed, w: World)
    requires InStep(m, w)
    ensures Agrees(m, w)
  {
  }

  lemma {:induction false} SerialSplit(m: Managed, attempts: seq<Attempt>, i: nat, w: World)
    requires i <= |attempts|
    ensures Serial(m, attempts, w) == Serial(Serial(m, attempts[..i], w), attempts[i..], w)
    decreases |attempts|
  {
    hide Handled;
    if i == |attempts| {
      assert attempts[..i] == attempts && attempts[i..] == [];
    } else {
      var front := attempts[..|attempts| - 1];
      SerialSplit(m, front, i, w);
      assert front[..i] == attempts[..i];
      assert attempts[i..][..|attempts| - i - 1] == front[i..];
    }
  }

  /** A successful request puts the manager in step whatever happened before it, torn saves included;
      it stays in step up to the next save that is torn. */
  lemma SuccessRestoresStep(m: Managed, attempts: seq<Attempt>, i: nat, w: World)
    requires TokensFromSecrets(PairOf(m)) && i < |attempts|
    requires Succeeds(Serial(m, attempts[..i], w), attempts[i].request, w, attempts[i].failing)
    requires SavesWhole(attempts[i + 1..])
    ensures InStep(Serial(m, attempts, w), w)
  {
    hide InStep, Handled, TokensFromSecrets, Succeeds;
    SerialKeepsTokens(m, attempts[..i], w);
    SuccessInStep(Serial(m, attempts[..i], w), attempts[i].request, w, attempts[i].failing);
    assert attempts[..i + 1][..i] == attempts[..i];
    SerialStaysInStep(Serial(m, attempts[..i + 1], w), attempts[i + 1..], w);
    SerialSplit(m, attempts, i + 1, w);
  }

  /** The attempt at position i of a run succeeds. */
  predicate SucceedsAt(m: Managed, attempts: seq<Attempt>, i: nat, w: World)
    requires i < |attempts|
  {
    Succeeds(Serial(m, attempts[..i], w), attempts[i].request, w, attempts[i].failing)
  }

  /** Config, secrets, collector and intervals change together or not at all: over any stretch of a run
      without a success they stay what they were, all of them, torn saves or not. */
  lemma {:induction false} OnlySuccessChangesMemory(m: Managed, attempts: seq<Attempt>, i: nat, w: World)
    requires i <= |attempts| && forall j | i <= j < |attempts| :: !SucceedsAt(m, attempts, j, w)
    ensures var was, now := Serial(m, attempts[..i], w), Serial(m, attempts, w);
            now == was.(files := now.files)
  {
    if i == |attempts| {
      assert attempts[..i] == attempts;
    } else {
      hide Handled, Succeeds;
      var front, last := attempts[..|attempts| - 1], attempts[|attempts| - 1];
      forall j | i <= j < |front| ensures !SucceedsAt(m, front, j, w) {
        assert !SucceedsAt(m, attempts, j, w);
        assert front[..j] == attempts[..j];
      }
      OnlySuccessChangesMemory(m, front, i, w);
      assert front[..i] == attempts[..i];
      assert !SucceedsAt(m, attempts, |attempts| - 1, w);
      FailureKeepsRest(Serial(m, front, w), last.request, w, last.failing);
    }
  }

  /** And a success sets all of them, from its own request: after any run, they are what the last
      successful request installed. */
  lemma MemoryIsLastSuccess(m: Managed, attempts: seq<Attempt>, i: nat, w: World)
    requires i < |attempts| && SucceedsAt(m, attempts, i, w)
    requires forall j | i < j < |attempts| :: !SucceedsAt(m, attempts, j, w)
    ensures var p := Transformed(PairOf(Serial(m, attempts[..i], w)), attempts[i].request).value;
            var now := Serial(m, attempts, w);
            && CollectorFor(Prepared(p), w).Some?
            && now == Installed(p, CollectorFor(Prepared(p), w).value).(files := now.files)
  {
    hide Transformed, CollectorFor, Installed;
    OnlySuccessChangesMemory(m, attempts, i + 1, w);
    assert attempts[..i + 1][..i] == attempts[..i];
  }

  /** The token is the source's own or else the one in the environment, without white space around it and
      with the prefix, once, in front. */
  predicate HoldsToken(client: Client, h: ProxmoxHost, env: map<string, string>) {
    var own := if h.tokenValue != "" then h.tokenValue else if h.tokenEnv in env then env[h.tokenEnv] else "";
    client.token == if "PVEAPIToken=" <= TrimSpace(own) then TrimSpace(own) else "PVEAPIToken=" + TrimSpace(own)
  }

  predicate Reads(client: Client, h: ProxmoxHost) {
    && client.id == h.id && client.name == h.name && client.tls == h.tls
    && WithoutSlashes(h.baseURL, client.baseURL)
  }

  /** Each client reads its source, and holds its token. */
  predicate HoldTokens(clients: seq<Client>, c: Config, env: map<string, string>) {
    && |clients| == |c.sources|
    && forall i | 0 <= i < |clients| :: Reads(clients[i], c.sources[i]) && HoldsToken(clients[i], c.sources[i], env)
  }

  lemma ClientHolds(h: ProxmoxHost, env: map<string, string>)
    ensures Reads(ClientFor(h, env), h) && HoldsToken(ClientFor(h, env), h, env)
  {
    TrimSlashesMeaning(h.baseURL);
  }

  lemma AgreeingTokens(m: Managed, w: World)
    requires Agrees(m, w)
    ensures m.collector.Bridge? ==>
              && HoldTokens(m.collector.clients, WithSecrets(m.cfg, m.secrets), w.env)
              && m.collector.alerts == m.cfg.alerts && m.collector.pinned == m.cfg.pinned
    ensures w.mock <==> m.collector.Mock?
    ensures m.collector.Bridge? ==> m.cfg.sources != []
  {
    hide ClientFor, HoldsToken, Reads, ValidConfig;
    var c := WithSecrets(m.cfg, m.secrets);
    forall i | 0 <= i < |c.sources|
      ensures Reads(ClientFor(c.sources[i], w.env), c.sources[i])
      ensures HoldsToken(ClientFor(c.sources[i], w.env), c.sources[i], w.env)
    {
      ClientHolds(c.sources[i], w.env);
    }
  }

  /** From every start of the bridge and over every serialised run: the clients of the installed
      collector hold exactly the tokens of the published config with its secrets, although the published
      sources hold none once a save has blanked them; and after every successful request a load of the
      files gives that config and those secrets. The config file may say anything but tokens at the start,
      and never holds one. */
  lemma RunsHoldTokens(files: Files, attempts: seq<Attempt>, w: World)
    requires SoundFiles(files)
    ensures var m := Serial(Started(files, w), attempts, w);
            && (m.collector.Bridge? ==> HoldTokens(m.collector.clients, WithSecrets(m.cfg, m.secrets), w.env))
            && SecretsIn(m.files) == m.secrets
            && (m.files.config.Some? ==> HoldsNoToken(m.files.config.value))
            && (attempts != [] && Succeeds(Serial(Started(files, w), attempts[..|attempts| - 1], w),
                                           attempts[|attempts| - 1].request, w, attempts[|attempts| - 1].failing) ==>
                  && Loaded(m.files) == WithSecrets(m.cfg, m.secrets)
                  && (!w.mock ==> if m.cfg.sources == [] then m.collector == Setup else m.collector.Bridge?)
                  && forall i | 0 <= i < |m.cfg.sources| :: m.cfg.sources[i].tokenValue == "")
  {
    hide Started, Loaded, WithSecrets, Succeeds, Handled, HoldTokens, HoldsNoToken, Tokenless;
    StartAgrees(files, w);
    SerialAgrees(Started(files, w), attempts, w);
    var now := Serial(Started(files, w), attempts, w).files.config;
    if now.Some? { TokenlessMeaning(now.value); }
    AgreeingTokens(Serial(Started(files, w), attempts, w), w);
    if attempts != [] {
      var front, last := attempts[..|attempts| - 1], attempts[|attempts| - 1];
      SerialAgrees(Started(files, w), front, w);
      LastSuccess(Serial(Started(files, w), front, w), last.request, w, last.failing);
    }
  }

  lemma LastSuccess(m: Managed, r: Request, w: World, failing: Step)
    requires Agrees(m, w)
    ensures var n := Handled(m, r, w, failing);
            Succeeds(m, r, w, failing) ==>
              && Loaded(n.files) == WithSecrets(n.cfg, n.secrets)
              && (!w.mock ==> if n.cfg.sources == [] then n.collector == Setup else n.collector.Bridge?)
              && forall i | 0 <= i < |n.cfg.sources| :: n.cfg.sources[i].tokenValue == ""
  {
    hide Transformed, ValidConfig, Usable, Loaded, Prepared, TokensFromSecrets;
    if Succeeds(m, r, w, failing) {
      SuccessInStep(m, r, w, failing);
    }
  }

  /** A manager in step can crash at any step of a request that changes no token: a later load gives
      the config from before the request or from after it. */
  lemma CrashBeforeOrAfter(m: Managed, r: Request, w: World, at: Step)
    requires InStep(m, w) && Transformed(PairOf(m), r).Ok? && KeepsTokens(r)
    ensures var p := Transformed(PairOf(m), r).value;
            var now := Loaded(StoppedAt(m.files, Prepared(p), p.secrets, at));
            now == WithSecrets(m.cfg, m.secrets) || now == Loaded(Written(Prepared(p), p.secrets))
  {
    hide TokensFromSecrets, CollectorFor, Transformed, Loaded, Written, Prepared, KeepsTokens, StoppedAt;
    QuietRequestIsAtomic(m.files, PairOf(m), r, at);
  }

  /** A manager in step that keeps the invariant, and crashes at any step of a request, restarts on a
      config and secrets that keep it, except exactly when a deletion stopped between the renames while
      a secret of its source was saved. */
  lemma RestartKeepsInv(m: Managed, r: Request, w: World, at: Step)
    requires InStep(m, w) && Inv(PairOf(m)) && Transformed(PairOf(m), r).Ok? && !w.mock
    ensures var p := Transformed(PairOf(m), r).value;
            var again := Started(StoppedAt(m.files, Prepared(p), p.secrets, at), w);
            Inv(PairOf(again)) <==> !(DropsSecret(PairOf(m), r) && at in {WriteSecrets, RenameSecrets})
  {
    hide Inv, TokensFromSecrets, CollectorFor, Transformed, Loaded, Prepared, StoppedAt, DropsSecret, WithSecrets;
    FinishedKeepsInv(PairOf(m));
    CrashKeepsInv(m.files, PairOf(m), r, at);
  }

  // ---- Interleaved calls ----

  /** Concurrent admin calls: each clones the published pair in one critical section and, if its request
      succeeds and its save and collector do, publishes its own result in another. */
  datatype Calls = Calls(published: Pair, running: map<nat, Call>)

  datatype Call = Call(clone: Pair, request: Request)

  datatype Move = Clone(call: nat, request: Request) | Publish(call: nat) | Abandon(call: nat)

  predicate Enabled(s: Calls, m: Move) {
    match m
    case Clone(n, _) => n !in s.running
    case Publish(n) => n in s.running && Transformed(s.running[n].clone, s.running[n].request).Ok?
    case Abandon(n) => n in s.running
  }

  function Moved(s: Calls, m: Move): Calls
    requires Enabled(s, m)
  {
    match m
    case Clone(n, r) => s.(running := s.running[n := Call(s.published, r)])
    case Publish(n) =>
      Calls(Published(Transformed(s.running[n].clone, s.running[n].request).value), s.running - {n})
    case Abandon(n) => s.(running := s.running - {n})
  }

  /** A run of calls in any interleaving. */
  ghost predicate IsInterleaving(start: Pair, run: seq<Calls>) {
    && run != [] && run[0] == Calls(start, map[])
    && forall i | 0 < i < |run| :: Follows(run[i - 1], run[i])
  }

  ghost predicate Follows(s: Calls, t: Calls) {
    exists m :: Enabled(s, m) && t == Moved(s, m)
  }

  ghost predicate AllInv(s: Calls) {
    Inv(s.published) && forall n | n in s.running :: Inv(s.running[n].clone)
  }

  lemma MoveKeepsInv(s: Calls, m: Move)
    requires AllInv(s) && Enabled(s, m)
    ensures AllInv(Moved(s, m))
  {
    hide Inv, Transformed, Published;
    if m.Publish? {
      var call := s.running[m.call];
      RequestKeepsInv(call.clone, call.request);
      PublishedKeepsInv(Transformed(call.clone, call.request).value);
    }
  }

  /** Whatever the interleaving, what is published satisfies the invariant once it held at the start,
      also when one call overwrites what another has just published. */
  lemma {:induction false} InterleavedInv(start: Pair, run: seq<Calls>, i: nat)
    requires Inv(start) && IsInterleaving(start, run) && i < |run|
    ensures AllInv(run[i])
  {
    hide Inv, Moved, Enabled;
    if i > 0 {
      InterleavedInv(start, run, i - 1);
      assert Follows(run[i - 1], run[i]);
      var m :| Enabled(run[i - 1], m) && run[i] == Moved(run[i - 1], m);
      MoveKeepsInv(run[i - 1], m);
    }
  }
}
