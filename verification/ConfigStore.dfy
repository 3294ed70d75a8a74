/** The two files: what a save writes, where it can stop, and what a later load makes of it. */
module ConfigStore {
  import opened Config
  import opened Folds
  import opened Health
  import opened Text
  import opened Wrappers

  /** The two files; a missing one is None. A config file holds no tokens. */
  datatype Files = Files(config: Option<Config>, secrets: Option<Secrets>)

  const ZERO := Config(Server("", 0, "", "", "", "", 0, 0), [], Thresholds(0, 0, 0, 0), [])
  const NO_SECRETS := Secrets("", "", map[])

  function SecretsIn(files: Files): Secrets {
    if files.secrets.Some? then files.secrets.value else NO_SECRETS
  }

  function ConfigIn(files: Files): Config {
    Defaulted(if files.config.Some? then files.config.value else ZERO)
  }

  /** The config that Load returns. */
  function Loaded(files: Files): Config {
    WithSecrets(ConfigIn(files), SecretsIn(files))
  }

  /** What a save writes into the config file. */
  function FileOf(c: Config): Config {
    Blanked(Defaulted(c))
  }

  function Written(c: Config, s: Secrets): Files {
    Files(Some(FileOf(c)), Some(s))
  }

  class Disk {
    var files: Files

    constructor (files: Files)
      ensures this.files == files
    {
      this.files := files;
    }
  }

  // ---- Saving, one step after the other ----

  /** The steps of a save, in order: each file is written aside and then renamed into place. */
  datatype Step = WriteConfig | RenameConfig | WriteSecrets | RenameSecrets | Done

  function StepIndex(s: Step): nat {
    match s
    case WriteConfig => 0
    case RenameConfig => 1
    case WriteSecrets => 2
    case RenameSecrets => 3
    case Done => 4
  }

  /** The files when a save of (c, s) over `was` has stopped before a step. */
  function StoppedAt(was: Files, c: Config, s: Secrets, at: Step): Files {
    match at
    case WriteConfig => was
    case RenameConfig => was
    case WriteSecrets => was.(config := Some(FileOf(c)))
    case RenameSecrets => was.(config := Some(FileOf(c)))
    case Done => Written(c, s)
  }

  /** Writes both files, unless a step fails. The sources are blanked through the caller's array,
      whatever becomes of the files. */
  method Save(c: Shared, s: Secrets, disk: Disk, failing: Step) returns (ok: bool)
    requires Sound(c)
    modifies c.data, disk
    ensures ok <==> failing.Done?
    ensures disk.files == StoppedAt(old(disk.files), old(Value(c)), s, failing)
    ensures Value(c).sources == BlankSources(Defaulted(old(Value(c)))).sources
    ensures forall i | c.len <= i < c.data.Length :: c.data[i] == old(c.data[i])
  {
    ghost var was := Value(c);
    var full := ApplyDefaults(c);
    ghost var filled := c.data[..];
    full := full.(server := full.server.(displayValue := "", adminValue := ""));
    for i := 0 to c.len
      invariant forall j | 0 <= j < i :: c.data[j] == BlankSource(filled[j])
      invariant forall j | i <= j < c.data.Length :: c.data[j] == filled[j]
      invariant disk.files == old(disk.files)
    {
      c.data[i] := c.data[i].(tokenValue := "");
    }
    assert Value(full).sources == Map(Defaulted(was).sources, BlankSource);
    assert Value(full) == FileOf(was);
    if failing.WriteConfig? || failing.RenameConfig? {
      return false;
    }
    disk.files := disk.files.(config := Some(Value(full)));
    if failing.WriteSecrets? || failing.RenameSecrets? {
      return false;
    }
    disk.files := disk.files.(secrets := Some(s));
    return true;
  }

  /** Whether each file, if it is there, can be read and parsed. */
  datatype Readable = Readable(config: bool, secrets: bool)

  datatype LoadError = ConfigError | SecretsError

  /** Reads both files, fills in defaults, and writes the secrets into the config. A file that is there
      but cannot be read or parsed is an error, the config's being noticed first. */
  method Load(disk: Disk, readable: Readable) returns (error: Option<LoadError>, c: Shared, s: Secrets)
    ensures Sound(c) && fresh(c.data)
    ensures error == if disk.files.config.Some? && !readable.config then Some(ConfigError)
                     else if disk.files.secrets.Some? && !readable.secrets then Some(SecretsError)
                     else None
    ensures error.None? ==> Value(c) == Loaded(disk.files) && s == SecretsIn(disk.files)
  {
    error, s := None, NO_SECRETS;
    var data := new ProxmoxHost[0];
    c := Shared(ZERO.server, data, 0, ZERO.alerts, ZERO.pinned);
    if disk.files.config.Some? {
      if !readable.config {
        error := Some(ConfigError);
        return;
      }
      c := Parsed(disk.files.config.value);
    }
    assert Value(c) == if disk.files.config.Some? then disk.files.config.value else ZERO;
    c := ApplyDefaults(c);
    if disk.files.secrets.Some? {
      if !readable.secrets {
        error := Some(SecretsError);
        return;
      }
      s := disk.files.secrets.value;
    }
    c := ApplySecrets(c, s);
  }

  method Parsed(config: Config) returns (c: Shared)
    ensures Sound(c) && fresh(c.data) && Value(c) == config
  {
    var data := new ProxmoxHost[|config.sources|](i requires 0 <= i < |config.sources| => config.sources[i]);
    assert data[..data.Length] == config.sources;
    c := Shared(config.server, data, data.Length, config.alerts, config.pinned);
  }

  // ---- Runs of saves with crashes ----

  /** A store between events. The stamps number the saves that the two files come from, 0 for what was
      there at first; `saving` is the save in progress, if any, with the step it will do next. */
  datatype Store = Store(files: Files, configStamp: nat, secretsStamp: nat, started: nat, saving: Option<Saving>)

  datatype Saving = Saving(config: Config, secrets: Secrets, next: Step)

  datatype Event = Start(config: Config, secrets: Secrets) | Advance | Crash

  predicate Enabled(m: Store, e: Event) {
    match e
    case Start(_, _) => m.saving.None?
    case Advance => m.saving.Some? && !m.saving.value.next.Done?
    case Crash => true
  }

  function Following(s: Step): Step {
    match s
    case WriteConfig => RenameConfig
    case RenameConfig => WriteSecrets
    case WriteSecrets => RenameSecrets
    case RenameSecrets => Done
    case Done => Done
  }

  function Stepped(m: Store, e: Event): Store
    requires Enabled(m, e)
  {
    match e
    case Start(c, s) => m.(started := m.started + 1, saving := Some(Saving(c, s, WriteConfig)))
    case Crash => m.(saving := None)
    case Advance =>
      var save := m.saving.value;
      var n := m.(saving := if Following(save.next).Done? then None else Some(save.(next := Following(save.next))));
      match save.next
      case RenameConfig => n.(files := n.files.(config := Some(FileOf(save.config))), configStamp := m.started)
      case RenameSecrets => n.(files := n.files.(secrets := Some(save.secrets)), secretsStamp := m.started)
      case _ => n
  }

  /** Every run of saves, each of which may crash or fail at any step. */
  ghost predicate IsRun(start: Files, run: seq<Store>) {
    && run != [] && run[0] == Store(start, 0, 0, 0, None)
    && forall i | 0 < i < |run| :: Moves(run[i - 1], run[i])
  }

  ghost predicate Moves(m: Store, n: Store) {
    exists e :: Enabled(m, e) && n == Stepped(m, e)
  }

  /** The config file is never older than the secrets file, and both come from saves that were started. */
  predicate Ordered(m: Store) {
    && m.secretsStamp <= m.configStamp <= m.started
    && (m.saving.Some? ==>
          m.started > 0 && m.secretsStamp < m.started
          && (m.configStamp < m.started <==> StepIndex(m.saving.value.next) <= 1))
  }

  lemma {:induction false} ConfigNeverOlder(start: Files, run: seq<Store>, i: nat)
    requires IsRun(start, run) && i < |run|
    ensures Ordered(run[i])
  {
    if i > 0 {
      ConfigNeverOlder(start, run, i - 1);
      assert Moves(run[i - 1], run[i]);
    }
  }

  /** From the start of a save up to the start of the next one, whatever crashes. */
  ghost predicate OneSave(run: seq<Store>, c: Config, s: Secrets) {
    && |run| >= 2 && run[0].saving.None? && run[1] == Stepped(run[0], Start(c, s))
    && forall i | 1 < i < |run| :: Moves(run[i - 1], run[i]) && run[i].started == run[1].started
  }

  lemma {:induction false} SaveProgress(run: seq<Store>, c: Config, s: Secrets, i: nat)
    requires OneSave(run, c, s) && 1 <= i < |run|
    ensures run[i].saving.Some? ==>
              var save := run[i].saving.value;
              && save.config == c && save.secrets == s
              && run[i].files == StoppedAt(run[0].files, c, s, save.next) && !save.next.Done?
    ensures exists at :: run[i].files == StoppedAt(run[0].files, c, s, at)
  {
    if i == 1 {
      assert run[1].files == StoppedAt(run[0].files, c, s, WriteConfig);
    } else {
      SaveProgress(run, c, s, i - 1);
      assert Moves(run[i - 1], run[i]);
      var e :| Enabled(run[i - 1], e) && run[i] == Stepped(run[i - 1], e);
      if e.Advance? {
        assert run[i].files == StoppedAt(run[0].files, c, s, Following(run[i - 1].saving.value.next));
      }
    }
  }

  /** A save that may crash anywhere leaves the old files, the new config with the old secrets, or the
      new files; never the old config with the new secrets. */
  lemma CrashLeaves(run: seq<Store>, c: Config, s: Secrets, i: nat)
    requires OneSave(run, c, s) && 1 <= i < |run|
    ensures var was, now := run[0].files, run[i].files;
            now == was || now == was.(config := Some(FileOf(c))) || now == Written(c, s)
  {
    SaveProgress(run, c, s, i);
  }

  // ---- Loading after a crash ----

  predicate TokensAgree(c: Config, s: Secrets, t: Secrets) {
    && TrimSpace(s.displayToken) == TrimSpace(t.displayToken)
    && TrimSpace(s.adminToken) == TrimSpace(t.adminToken)
    && forall i | 0 <= i < |c.sources| :: SecretFor(s, c.sources[i].id) == SecretFor(t, c.sources[i].id)
  }

  /** A config file holds no tokens. */
  predicate Tokenless(c: Config) {
    Blanked(c) == c
  }

  /** That is: neither of the server's tokens, and none of a source. */
  predicate HoldsNoToken(c: Config) {
    && c.server.displayValue == "" && c.server.adminValue == ""
    && forall h | h in c.sources :: h.tokenValue == ""
  }

  lemma TokenlessMeaning(c: Config)
    ensures Tokenless(c) <==> HoldsNoToken(c)
  {
    if Tokenless(c) {
      forall i | 0 <= i < |c.sources| ensures c.sources[i].tokenValue == "" {
        assert Blanked(c).sources[i] == c.sources[i];
      }
    }
    if HoldsNoToken(c) {
      forall i | 0 <= i < |c.sources| ensures BlankSource(c.sources[i]) == c.sources[i] {
        assert c.sources[i] in c.sources;
      }
      assert Blanked(c).sources == c.sources;
    }
  }

  lemma FilesAreTokenless(c: Config)
    ensures Tokenless(FileOf(c)) && Defaulted(FileOf(c)) == FileOf(c)
  {
  }

  /** Secrets written into one tokenless config agree exactly when they agree on its own tokens. */
  lemma SecretsDecide(c: Config, s: Secrets, t: Secrets)
    requires Tokenless(c)
    ensures WithSecrets(c, s) == WithSecrets(c, t) <==> TokensAgree(c, s, t)
  {
  }

  /** Two tokenless configs with the same secrets are told apart by what is not a token. */
  lemma ConfigsDecide(c: Config, d: Config, s: Secrets)
    requires Tokenless(c) && Tokenless(d)
    ensures WithSecrets(c, s) == WithSecrets(d, s) <==> c == d
  {
    BlankAgain(c, s);
    BlankAgain(d, s);
  }

  /** Blanking undoes the secrets, up to the tokens that were there before. */
  lemma BlankAgain(c: Config, s: Secrets)
    ensures Blanked(WithSecrets(c, s)) == Blanked(c)
  {
    assert Blanked(WithSecrets(c, s)).sources == Blanked(c).sources;
  }

  /** Round trip: a load after a complete save gives the saved config, with the saved secrets in it. */
  lemma LoadAfterSave(c: Config, s: Secrets)
    ensures Loaded(Written(c, s)) == WithSecrets(FileOf(c), s)
  {
    FilesAreTokenless(c);
  }

  /** Whatever the files say, what is loaded has no gap that a default could fill. */
  lemma LoadedHasNoGaps(files: Files)
    ensures var c := Loaded(files);
            && c.server.bind != "" && c.server.port != 0 && c.server.displayEnv != "" && c.server.adminEnv != ""
            && c.server.poll != 0 && c.server.stale != 0
            && c.alerts.memoryWarning != 0 && c.alerts.memoryCritical != 0
            && c.alerts.storageWarning != 0 && c.alerts.storageCritical != 0
            && forall h | h in c.sources :: h.tls.mode != ""
  {
    var c := Loaded(files);
    forall i | 0 <= i < |c.sources| ensures c.sources[i].tls.mode != "" {
    }
  }

  /** Tokens are never written into the config file, so none is read from it. */
  predicate SoundFiles(files: Files) {
    files.config.Some? ==> Tokenless(files.config.value)
  }

  lemma ReadTokenless(files: Files)
    requires SoundFiles(files)
    ensures Tokenless(ConfigIn(files))
  {
  }

  /** A save of (c, s) that stops between the two renames is read back as the state before or after it
      exactly when the save does not change what the config file says, or does not change any token
      that the new config uses. */
  lemma CrashLoads(was: Files, c: Config, s: Secrets)
    requires SoundFiles(was)
    ensures var mixed := Loaded(was.(config := Some(FileOf(c))));
            (mixed == Loaded(was) || mixed == Loaded(Written(c, s)))
            <==> FileOf(c) == ConfigIn(was) || TokensAgree(c, SecretsIn(was), s)
  {
    FilesAreTokenless(c);
    ReadTokenless(was);
    SecretsDecide(FileOf(c), SecretsIn(was), s);
    ConfigsDecide(FileOf(c), ConfigIn(was), SecretsIn(was));
    assert TokensAgree(FileOf(c), SecretsIn(was), s) <==> TokensAgree(c, SecretsIn(was), s) by {
      assert forall i | 0 <= i < |c.sources| :: FileOf(c).sources[i].id == c.sources[i].id;
      assert |FileOf(c).sources| == |c.sources|;
    }
  }

  /** A save whose secrets agree on the new config's tokens is atomic for later loads. */
  lemma AtomicSave(was: Files, c: Config, s: Secrets, at: Step)
    requires SoundFiles(was) && TokensAgree(c, SecretsIn(was), s)
    ensures var now := Loaded(StoppedAt(was, c, s, at));
            now == Loaded(was) || now == Loaded(Written(c, s))
  {
    CrashLoads(was, c, s);
  }
}
