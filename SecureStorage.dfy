/**
 * The encrypted secret store of src/utils/secure-storage.ts.
 *
 * `SecureStorage` keeps four fields: the data directory, the encryption key,
 * whether the OS vault (keytar) is usable, and whether initialisation has
 * run. It works against two outside stores, modelled by `Host`: the files
 * of the file system (path to content) with its directories, and the one
 * vault entry the store uses (service `garmin-mcp-server`, account
 * `encryption-key`).
 *
 * What the outside world decides is passed in: whether keytar loads, whether
 * a vault read or write fails, whether reading the key file fails, the
 * random bytes, and the current time. Each state-changing method is
 * specified by a function over the store's `Status` and the host's `Disk`;
 * the lemmas are about those functions.
 */
module SecureStore {
  import opened Wrappers
  import opened Strings
  import opened Crypto

  // ---------------------------------------------------------------------
  // getDataDir (secure-storage.ts:64-83)
  // ---------------------------------------------------------------------

  datatype Platform = Win32 | Darwin | OtherPlatform(name: string)

  /** The separator `path.join` uses on the platform. */
  function Separator(platform: Platform): char {
    if platform == Win32 then '\\' else '/'
  }

  /** `path.join(dir, name)` for a directory without a trailing separator and a plain name. */
  function PathJoin(sep: char, dir: string, name: string): string {
    dir + [sep] + name
  }

  /** `process.env[name]` is set to a non-empty string. */
  predicate EnvSet(env: map<string, string>, name: string) {
    name in env && env[name] != ""
  }

  /** The directory under which `getDataDir` puts `garmin-mcp`. */
  function DataDirBase(platform: Platform, home: string, env: map<string, string>): string {
    match platform
    case Win32 =>
      if EnvSet(env, "LOCALAPPDATA") then env["LOCALAPPDATA"]
      else PathJoin('\\', PathJoin('\\', home, "AppData"), "Local")
    case Darwin => PathJoin('/', PathJoin('/', home, "Library"), "Application Support")
    case OtherPlatform(_) =>
      if EnvSet(env, "XDG_CONFIG_HOME") then env["XDG_CONFIG_HOME"]
      else PathJoin('/', home, ".config")
  }

  /** `getDataDir()`: a `garmin-mcp` directory under the platform's per-user data directory. */
  function GetDataDir(platform: Platform, home: string, env: map<string, string>): (dir: string)
    ensures dir == DataDirBase(platform, home, env) + [Separator(platform)] + "garmin-mcp"
  {
    PathJoin(Separator(platform), DataDirBase(platform, home, env), "garmin-mcp")
  }

  /** On Windows: `%LOCALAPPDATA%`, or `AppData\Local` under the home directory. */
  lemma DataDirWindows(home: string, env: map<string, string>)
    ensures GetDataDir(Win32, home, env) ==
      (if EnvSet(env, "LOCALAPPDATA") then env["LOCALAPPDATA"] else home + "\\" + "AppData" + "\\" + "Local") + "\\" + "garmin-mcp"
  {
  }

  /** On macOS: `Library/Application Support` under the home directory, whatever the environment. */
  lemma DataDirDarwin(home: string, env: map<string, string>)
    ensures GetDataDir(Darwin, home, env) == home + "/" + "Library" + "/" + "Application Support" + "/" + "garmin-mcp"
  {
  }

  /** Elsewhere: `$XDG_CONFIG_HOME`, or `.config` under the home directory. */
  lemma DataDirOther(name: string, home: string, env: map<string, string>)
    ensures GetDataDir(OtherPlatform(name), home, env) ==
      (if EnvSet(env, "XDG_CONFIG_HOME") then env["XDG_CONFIG_HOME"] else home + "/" + ".config") + "/" + "garmin-mcp"
  {
  }

  /** Whatever the platform and environment, the last path segment is `garmin-mcp`. */
  lemma DataDirEndsInGarminMcp(platform: Platform, home: string, env: map<string, string>)
    ensures var dir := GetDataDir(platform, home, env);
      |dir| > 11 && dir[|dir| - 11..] == [Separator(platform)] + "garmin-mcp"
  {
  }

  // ---------------------------------------------------------------------
  // The outside stores and the store's own state
  // ---------------------------------------------------------------------

  const CredentialsFile: string := "garmin-credentials.enc"
  const TokensFile: string := "garmin-tokens.enc"
  const FallbackKeyFile: string := ".encryption.key"
  const GitignoreFile: string := ".gitignore"
  const GitignoreContent: string := "# Ignore all encrypted files and keys\n*.enc\n*.key\n.encryption.key\n"

  /** Files (path to content), directories, and the store's vault entry. */
  datatype Disk = Disk(files: map<string, string>, dirs: set<string>, vault: Option<string>)

  /** The fields of `SecureStorage` that change. */
  datatype Status = Status(encryptionKey: Option<string>, keytarAvailable: bool, initialized: bool)

  /** What the outside world decides during `initialize`. */
  datatype InitOracle = InitOracle(
    keytarLoads: bool,        // the keytar import succeeds and provides setPassword
    vaultReadFails: bool,     // keytar.getPassword throws
    keyFileReadFails: bool,   // fs.readFileSync of the key file throws
    randomKey: seq<Byte>,     // crypto.randomBytes(32)
    vaultWriteFails: bool)    // keytar.setPassword throws

  /** The vault holds a non-empty key and can be read. */
  predicate VaultHasKey(d: Disk, readFails: bool) {
    !readFails && d.vault.Some? && d.vault.value != ""
  }

  /** `ensureDataDirectory` (secure-storage.ts:123-135). */
  function DataDirectoryEnsured(dir: string, sep: char, d: Disk): (r: Disk)
    ensures dir in r.dirs && r.dirs == d.dirs + {dir}
    ensures PathJoin(sep, dir, GitignoreFile) in r.files
    ensures PathJoin(sep, dir, GitignoreFile) in d.files ==> r.files == d.files
    ensures PathJoin(sep, dir, GitignoreFile) !in d.files ==>
      r.files == d.files[PathJoin(sep, dir, GitignoreFile) := GitignoreContent]
    ensures r.vault == d.vault
  {
    var d1 := if dir in d.dirs then d else d.(dirs := d.dirs + {dir});
    var gitignore := PathJoin(sep, dir, GitignoreFile);
    if gitignore in d1.files then d1 else d1.(files := d1.files[gitignore := GitignoreContent])
  }

  /** `generateNewKey` (secure-storage.ts:198-220): the key and where it is persisted. */
  function KeyGeneration(dir: string, sep: char, keytar: bool, d: Disk, random: seq<Byte>, writeFails: bool): (string, Disk) {
    var key := Hex(random);
    if keytar && !writeFails then (key, d.(vault := Some(key)))
    else (key, d.(files := d.files[PathJoin(sep, dir, FallbackKeyFile) := key]))
  }

  /** `loadOrGenerateKey` (secure-storage.ts:164-193). */
  function KeyResolution(dir: string, sep: char, keytar: bool, d: Disk, o: InitOracle): (string, Disk) {
    var keyFile := PathJoin(sep, dir, FallbackKeyFile);
    if keytar && VaultHasKey(d, o.vaultReadFails) then (d.vault.value, d)
    else if keyFile in d.files && !o.keyFileReadFails then (Trim(d.files[keyFile]), d)
    else KeyGeneration(dir, sep, keytar, d, o.randomKey, o.vaultWriteFails)
  }

  /** `initialize` (secure-storage.ts:105-118). */
  function Initialization(dir: string, sep: char, s: Status, d: Disk, o: InitOracle): (Status, Disk) {
    if s.initialized then (s, d)
    else
      var d1 := DataDirectoryEnsured(dir, sep, d);
      var (key, d2) := KeyResolution(dir, sep, o.keytarLoads, d1, o);
      (Status(Some(key), o.keytarLoads, true), d2)
  }

  /** `resetInitialization` (secure-storage.ts:505-508). */
  function Reset(s: Status): Status {
    s.(initialized := false, encryptionKey := None)
  }

  // ---------------------------------------------------------------------
  // Properties of initialisation and key handling
  // ---------------------------------------------------------------------

  /** What the store's fields keep: an initialised store holds a key. */
  predicate Consistent(s: Status) {
    s.initialized ==> s.encryptionKey.Some?
  }

  /** The new store, initialisation and reset keep the store consistent. */
  lemma ConsistentPreserved(dir: string, sep: char, s: Status, d: Disk, o: InitOracle)
    requires Consistent(s)
    ensures Consistent(Status(None, false, false))
    ensures Consistent(Initialization(dir, sep, s, d, o).0)
    ensures Consistent(Reset(s))
  {
  }

  /** Initialisation runs once: afterwards the store is initialised and a second call changes nothing. */
  lemma InitializeOnce(dir: string, sep: char, s: Status, d: Disk, o1: InitOracle, o2: InitOracle)
    requires Consistent(s)
    ensures var (s1, d1) := Initialization(dir, sep, s, d, o1);
      && s1.initialized && s1.encryptionKey.Some?
      && Initialization(dir, sep, s1, d1, o2) == (s1, d1)
    ensures s.initialized ==> Initialization(dir, sep, s, d, o1) == (s, d)
  {
  }

  /** After a reset, initialisation runs again and reloads the key. */
  lemma ResetReinitializes(dir: string, sep: char, s: Status, d: Disk, o: InitOracle)
    ensures var r := Reset(s); !r.initialized && r.encryptionKey.None? && r.keytarAvailable == s.keytarAvailable
    ensures var (s1, d1) := Initialization(dir, sep, Reset(s), d, o);
      s1.encryptionKey == Some(KeyResolution(dir, sep, o.keytarLoads, DataDirectoryEnsured(dir, sep, d), o).0)
  {
  }

  /**
   * Key priority: the vault's key when keytar is usable and the vault holds
   * one, else the trimmed key file when it exists and can be read, else a
   * newly generated key.
   */
  lemma KeyPriority(dir: string, sep: char, keytar: bool, d: Disk, o: InitOracle)
    ensures var keyFile := PathJoin(sep, dir, FallbackKeyFile);
      var (key, d1) := KeyResolution(dir, sep, keytar, d, o);
      && (keytar && VaultHasKey(d, o.vaultReadFails) ==> key == d.vault.value && d1 == d)
      && (!(keytar && VaultHasKey(d, o.vaultReadFails)) && keyFile in d.files && !o.keyFileReadFails ==>
            key == Trim(d.files[keyFile]) && d1 == d)
      && (!(keytar && VaultHasKey(d, o.vaultReadFails)) && !(keyFile in d.files && !o.keyFileReadFails) ==>
            key == Hex(o.randomKey))
  {
  }

  /**
   * A generated key is 64 hexadecimal digits that decode to the 32 random
   * bytes; it goes to the vault when keytar is usable and the write
   * succeeds, and to the key file otherwise, leaving everything else alone.
   */
  lemma GeneratedKeyStored(dir: string, sep: char, keytar: bool, d: Disk, random: seq<Byte>, writeFails: bool)
    requires |random| == 32
    ensures var (key, d1) := KeyGeneration(dir, sep, keytar, d, random, writeFails);
      && |key| == 64 && (forall k :: 0 <= k < 64 ==> DigitValue(key[k]).Some?)
      && HexBytes(key) == random && UsableKey(Some(key))
      && (keytar && !writeFails ==> d1 == d.(vault := Some(key)))
      && (!(keytar && !writeFails) ==> d1 == d.(files := d.files[PathJoin(sep, dir, FallbackKeyFile) := key]))
  {
    HexRoundTrip(random);
  }

  /**
   * A key loaded or generated during one initialisation is the key the next
   * initialisation finds, when keytar's availability is the same and no read
   * fails.
   */
  lemma KeyPersists(dir: string, sep: char, d: Disk, o1: InitOracle, o2: InitOracle)
    requires o1.keytarLoads == o2.keytarLoads && |o1.randomKey| == 32
    requires !o1.vaultReadFails && !o2.vaultReadFails && !o2.keyFileReadFails
    ensures var (s1, d1) := Initialization(dir, sep, Status(None, false, false), d, o1);
      var (s2, d2) := Initialization(dir, sep, Reset(s1), d1, o2);
      s2.encryptionKey == s1.encryptionKey && d2 == d1
  {
    var d0 := DataDirectoryEnsured(dir, sep, d);
    var (key, d1) := KeyResolution(dir, sep, o1.keytarLoads, d0, o1);
    var keyFile := PathJoin(sep, dir, FallbackKeyFile);
    assert DataDirectoryEnsured(dir, sep, d1) == d1;
    if o1.keytarLoads && VaultHasKey(d0, false) {
      assert KeyResolution(dir, sep, o2.keytarLoads, d1, o2) == (key, d1);
    } else if keyFile in d0.files && !o1.keyFileReadFails {
      assert KeyResolution(dir, sep, o2.keytarLoads, d1, o2) == (key, d1);
    } else {
      GeneratedKeyStored(dir, sep, o1.keytarLoads, d0, o1.randomKey, o1.vaultWriteFails);
      HexIsTrimmed(o1.randomKey);
      if o1.keytarLoads && !o1.vaultWriteFails {
        assert VaultHasKey(d1, false);
      } else {
        assert d1.vault == d0.vault && keyFile in d1.files && d1.files[keyFile] == key;
      }
      assert KeyResolution(dir, sep, o2.keytarLoads, d1, o2) == (key, d1);
    }
  }

  // ---------------------------------------------------------------------
  // encrypt / decrypt and the files built on them (secure-storage.ts:289-397)
  // ---------------------------------------------------------------------

  /** `encrypt(value, filename)`: the status and disk afterwards, and whether it threw. */
  function EncryptFile(dir: string, sep: char, s: Status, d: Disk, o: InitOracle, p: Primitives,
                       value: Json, filename: string, iv: seq<Byte>): (Status, Disk, Result<(), Fault>) {
    var (s1, d1) := Initialization(dir, sep, s, d, o);
    match EncryptText(p, s1.encryptionKey, p.stringify(value), iv)
    case Err(fault) => (s1, d1, Err(fault))
    case Ok(text) => (s1, d1.(files := d1.files[PathJoin(sep, dir, filename) := text]), Ok(()))
  }

  /** `decrypt(filename)`: `None` for a missing file and for any failure to decrypt or parse. */
  function DecryptFile(dir: string, sep: char, s: Status, d: Disk, o: InitOracle, p: Primitives,
                       filename: string): (Status, Disk, Option<Json>) {
    var (s1, d1) := Initialization(dir, sep, s, d, o);
    var path := PathJoin(sep, dir, filename);
    if path !in d1.files then (s1, d1, None)
    else
      match DecryptText(p, s1.encryptionKey, d1.files[path])
      case Err(_) => (s1, d1, None)
      case Ok(text) => (s1, d1, p.parse(text))
  }

  /** The record `saveTokens` encrypts: every field of the tokens, then `savedAt`. */
  function TokensRecord(tokens: map<string, Json>, now: string): (j: Json)
    ensures j.JObject? && j.fields.Keys == tokens.Keys + {"savedAt"} && j.fields["savedAt"] == JString(now)
    ensures forall k :: k in tokens && k != "savedAt" ==> j.fields[k] == tokens[k]
  {
    JObject(tokens["savedAt" := JString(now)])
  }

  /** The record `saveCredentials` encrypts. */
  function CredentialsRecord(email: string, password: string): Json {
    JObject(map["email" := JString(email), "password" := JString(password)])
  }

  /** The file without `path`, as `fs.unlinkSync` after `fs.existsSync` leaves it. */
  function DeleteFile(d: Disk, path: string): (r: Disk)
    ensures path !in r.files && r.dirs == d.dirs && r.vault == d.vault
    ensures forall q :: q in d.files && q != path ==> q in r.files && r.files[q] == d.files[q]
    ensures r.files.Keys == d.files.Keys - {path}
    ensures path !in d.files ==> r == d
  {
    if path in d.files then d.(files := d.files - {path}) else d
  }

  /**
   * What `encrypt` stored, `decrypt` returns: once the store holds a usable
   * key, decrypting the file just written yields the record, whatever the
   * later oracles say.
   */
  lemma StoreRoundTrip(dir: string, sep: char, s: Status, d: Disk, o1: InitOracle, o2: InitOracle,
                       p: Primitives, value: Json, filename: string, iv: seq<Byte>)
    requires Lawful(p) && |iv| == 12
    requires UsableKey(Initialization(dir, sep, s, d, o1).0.encryptionKey)
    ensures var (s1, d1, r) := EncryptFile(dir, sep, s, d, o1, p, value, filename, iv);
      && r == Ok(())
      && DecryptFile(dir, sep, s1, d1, o2, p, filename) == (s1, d1, Some(value))
  {
    var (s1, d1) := Initialization(dir, sep, s, d, o1);
    TextRoundTrip(p, s1.encryptionKey, p.stringify(value), iv);
  }

  /** A store started on an empty disk generates a usable key, so its records round-trip. */
  lemma FreshStoreRoundTrip(dir: string, sep: char, d: Disk, o1: InitOracle, o2: InitOracle,
                            p: Primitives, value: Json, filename: string, iv: seq<Byte>)
    requires Lawful(p) && |iv| == 12 && |o1.randomKey| == 32
    requires d.vault.None? && PathJoin(sep, dir, FallbackKeyFile) !in d.files
    ensures var (s1, d1, r) := EncryptFile(dir, sep, Status(None, false, false), d, o1, p, value, filename, iv);
      && r == Ok(())
      && DecryptFile(dir, sep, s1, d1, o2, p, filename).2 == Some(value)
  {
    var s := Status(None, false, false);
    var d0 := DataDirectoryEnsured(dir, sep, d);
    assert PathJoin(sep, dir, FallbackKeyFile) != PathJoin(sep, dir, GitignoreFile) by {
      assert PathJoin(sep, dir, FallbackKeyFile)[|dir| + 1] == '.';
      assert PathJoin(sep, dir, GitignoreFile)[|dir| + 2] == 'g';
      assert PathJoin(sep, dir, FallbackKeyFile)[|dir| + 2] == 'e';
    }
    GeneratedKeyStored(dir, sep, o1.keytarLoads, d0, o1.randomKey, o1.vaultWriteFails);
    StoreRoundTrip(dir, sep, s, d, o1, o2, p, value, filename, iv);
  }

  /** `decrypt` of a missing file is `None`, and so is any file the cipher or the parser rejects. */
  lemma DecryptNullCases(dir: string, sep: char, s: Status, d: Disk, o: InitOracle, p: Primitives, filename: string)
    ensures var (s1, d1) := Initialization(dir, sep, s, d, o);
      var path := PathJoin(sep, dir, filename);
      && (path !in d1.files ==> DecryptFile(dir, sep, s, d, o, p, filename).2 == None)
      && (path in d1.files && DecryptText(p, s1.encryptionKey, d1.files[path]).Err? ==>
            DecryptFile(dir, sep, s, d, o, p, filename).2 == None)
      && (path in d1.files && DecryptText(p, s1.encryptionKey, d1.files[path]).Ok? ==>
            DecryptFile(dir, sep, s, d, o, p, filename).2 == p.parse(DecryptText(p, s1.encryptionKey, d1.files[path]).value))
  {
  }

  /** `encrypt` without a key throws 'Encryption key not initialized' and writes no file. */
  lemma EncryptWithoutKey(dir: string, sep: char, s: Status, d: Disk, o: InitOracle, p: Primitives,
                          value: Json, filename: string, iv: seq<Byte>)
    requires !HasKey(Initialization(dir, sep, s, d, o).0.encryptionKey)
    ensures var (s1, d1) := Initialization(dir, sep, s, d, o);
      EncryptFile(dir, sep, s, d, o, p, value, filename, iv) == (s1, d1, Err(KeyNotInitialized))
  {
  }

  /** `saveTokens` stores every token field and `savedAt`, and `loadTokens` returns them. */
  lemma TokensRoundTrip(dir: string, sep: char, s: Status, d: Disk, o1: InitOracle, o2: InitOracle,
                        p: Primitives, tokens: map<string, Json>, now: string, iv: seq<Byte>)
    requires Lawful(p) && |iv| == 12
    requires UsableKey(Initialization(dir, sep, s, d, o1).0.encryptionKey)
    ensures var (s1, d1, r) := EncryptFile(dir, sep, s, d, o1, p, TokensRecord(tokens, now), TokensFile, iv);
      var loaded := DecryptFile(dir, sep, s1, d1, o2, p, TokensFile).2;
      && loaded.Some? && loaded.value.JObject?
      && loaded.value.fields.Keys == tokens.Keys + {"savedAt"}
      && loaded.value.fields["savedAt"] == JString(now)
      && forall k :: k in tokens && k != "savedAt" ==> loaded.value.fields[k] == tokens[k]
  {
    StoreRoundTrip(dir, sep, s, d, o1, o2, p, TokensRecord(tokens, now), TokensFile, iv);
  }

  /** Deleting the credentials leaves the tokens, and deleting the tokens leaves the credentials. */
  lemma DeletesAreSeparate(dir: string, sep: char, d: Disk)
    ensures var c, t := PathJoin(sep, dir, CredentialsFile), PathJoin(sep, dir, TokensFile);
      && (t in d.files ==> t in DeleteFile(d, c).files && DeleteFile(d, c).files[t] == d.files[t])
      && (c in d.files ==> c in DeleteFile(d, t).files && DeleteFile(d, t).files[c] == d.files[c])
  {
    var c, t := PathJoin(sep, dir, CredentialsFile), PathJoin(sep, dir, TokensFile);
    assert c[|dir| + 8] == 'c' && t[|dir| + 8] == 't';
  }

  // ---------------------------------------------------------------------
  // getConfig (secure-storage.ts:403-436)
  // ---------------------------------------------------------------------

  datatype KeyStorageMethod = Keytar | FileFallback

  datatype EncryptionConfig = EncryptionConfig(
    dataDir: string,
    keyStorageMethod: KeyStorageMethod,
    keyExists: bool,
    credentialsExist: bool,
    tokensExist: bool,
    platform: Platform,
    keytarAvailable: bool)

  /** The configuration `getConfig` reports after initialising. */
  function Config(dir: string, sep: char, platform: Platform, s: Status, d: Disk, o: InitOracle,
                  vaultReadFails: bool): (c: EncryptionConfig)
    ensures c.dataDir == dir && c.platform == platform
    ensures var (s1, d1) := Initialization(dir, sep, s, d, o);
      && c.keytarAvailable == s1.keytarAvailable
      && (c.keyStorageMethod == Keytar <==> s1.keytarAvailable && VaultHasKey(d1, vaultReadFails))
      && (c.keyExists <==> c.keyStorageMethod == Keytar || PathJoin(sep, dir, FallbackKeyFile) in d1.files)
      && (c.credentialsExist <==> PathJoin(sep, dir, CredentialsFile) in d1.files)
      && (c.tokensExist <==> PathJoin(sep, dir, TokensFile) in d1.files)
  {
    var (s1, d1) := Initialization(dir, sep, s, d, o);
    var inVault := s1.keytarAvailable && VaultHasKey(d1, vaultReadFails);
    EncryptionConfig(
      dir,
      if inVault then Keytar else FileFallback,
      inVault || PathJoin(sep, dir, FallbackKeyFile) in d1.files,
      PathJoin(sep, dir, CredentialsFile) in d1.files,
      PathJoin(sep, dir, TokensFile) in d1.files,
      platform,
      s1.keytarAvailable)
  }

  // ---------------------------------------------------------------------
  // migrateKeyToVault (secure-storage.ts:458-499)
  // ---------------------------------------------------------------------

  /** `migrateKeyToVault`: the status and disk afterwards, and the result. */
  function Migrate(dir: string, sep: char, s: Status, d: Disk, o: InitOracle,
                   readFails: bool, writeFails: bool): (Status, Disk, bool) {
    var (s1, d1) := Initialization(dir, sep, s, d, o);
    if !s1.keytarAvailable then (s1, d1, false)
    else if !HasKey(s1.encryptionKey) then (s1, d1, false)
    else if VaultHasKey(d1, readFails) then (s1, d1, true)
    else if writeFails then (s1, d1, false)
    else (s1, DeleteFile(d1.(vault := s1.encryptionKey), PathJoin(sep, dir, FallbackKeyFile)), true)
  }

  /**
   * The four outcomes of migration, measured from the initialised state:
   * no vault or no key gives false and no change; a key already in the
   * vault gives true and no change; a failed write gives false and no
   * change; a successful write puts the key in the vault and only then
   * removes the key file.
   */
  lemma MigrateOutcomes(dir: string, sep: char, s: Status, d: Disk, o: InitOracle, readFails: bool, writeFails: bool)
    ensures var (s1, d1) := Initialization(dir, sep, s, d, o);
      var (s2, d2, ok) := Migrate(dir, sep, s, d, o, readFails, writeFails);
      var keyFile := PathJoin(sep, dir, FallbackKeyFile);
      && s2 == s1
      && (!s1.keytarAvailable || !HasKey(s1.encryptionKey) ==> !ok && d2 == d1)
      && (s1.keytarAvailable && HasKey(s1.encryptionKey) && VaultHasKey(d1, readFails) ==> ok && d2 == d1)
      && (s1.keytarAvailable && HasKey(s1.encryptionKey) && !VaultHasKey(d1, readFails) && writeFails ==>
            !ok && d2 == d1)
      && (s1.keytarAvailable && HasKey(s1.encryptionKey) && !VaultHasKey(d1, readFails) && !writeFails ==>
            ok && d2.vault == s1.encryptionKey && keyFile !in d2.files && d2.dirs == d1.dirs
            && d2.files.Keys == d1.files.Keys - {keyFile})
  {
  }

  /** Migration never loses the key: if the key file disappears, the vault now holds the store's key. */
  lemma MigrateKeepsKey(dir: string, sep: char, s: Status, d: Disk, o: InitOracle, readFails: bool, writeFails: bool)
    ensures var (s1, d1) := Initialization(dir, sep, s, d, o);
      var (s2, d2, ok) := Migrate(dir, sep, s, d, o, readFails, writeFails);
      var keyFile := PathJoin(sep, dir, FallbackKeyFile);
      keyFile in d1.files && keyFile !in d2.files ==> d2.vault == s1.encryptionKey && HasKey(d2.vault)
  {
  }

  /** After a migration that wrote the vault, reinitialising with a readable vault reloads the same key. */
  lemma MigratedKeyReloads(dir: string, sep: char, s: Status, d: Disk, o: InitOracle, o2: InitOracle,
                           readFails: bool)
    requires o2.keytarLoads && !o2.vaultReadFails
    ensures var (s1, d1) := Initialization(dir, sep, s, d, o);
      var (s2, d2, ok) := Migrate(dir, sep, s, d, o, readFails, false);
      ok && !VaultHasKey(d1, readFails) ==>
        Initialization(dir, sep, Reset(s2), d2, o2).0.encryptionKey == s2.encryptionKey
  {
  }

  /**
   * A vault key found during migration is trusted without comparing it with
   * the store's key: migration reports success while the vault holds a
   * different key, which the next initialisation then loads.
   */
  lemma MigrateTrustsExistingVaultKey(dir: string, sep: char, o: InitOracle)
    requires o.keytarLoads && !o.vaultReadFails
    ensures var s := Status(Some("a"), true, true);
      var d := Disk(map[], {}, Some("b"));
      && Migrate(dir, sep, s, d, o, false, false) == (s, d, true)
      && Initialization(dir, sep, Reset(s), d, o).0.encryptionKey == Some("b")
  {
  }

  // ---------------------------------------------------------------------
  // The outside stores and the SecureStorage class
  // ---------------------------------------------------------------------

  /** The file system and the vault entry, which the store's methods change in place. */
  class Host {
    var files: map<string, string>
    var dirs: set<string>
    var vault: Option<string>

    constructor (disk: Disk)
      ensures Snapshot() == disk
    {
      files, dirs, vault := disk.files, disk.dirs, disk.vault;
    }

    function Snapshot(): Disk
      reads this
    {
      Disk(files, dirs, vault)
    }
  }

  class SecureStorage {
    const platform: Platform
    /** `os.homedir()` and `process.env` as the constructor sees them. */
    const home: string
    const env: map<string, string>
    const sep: char := Separator(platform)
    const dataDir: string := GetDataDir(platform, home, env)
    var encryptionKey: Option<string>
    var keytarAvailable: bool
    var initialized: bool

    function Snapshot(): Status
      reads this
    {
      Status(encryptionKey, keytarAvailable, initialized)
    }

    /** `new SecureStorage()`: the data directory is fixed, nothing is loaded yet. */
    constructor (platform: Platform, home: string, env: map<string, string>)
      ensures this.platform == platform && sep == Separator(platform)
      ensures dataDir == GetDataDir(platform, home, env)
      ensures Snapshot() == Status(None, false, false)
    {
      this.platform := platform;
      this.home := home;
      this.env := env;
      encryptionKey := None;
      keytarAvailable := false;
      initialized := false;
    }

    method Initialize(host: Host, o: InitOracle)
      modifies this, host
      ensures (Snapshot(), host.Snapshot()) == Initialization(dataDir, sep, old(Snapshot()), old(host.Snapshot()), o)
      ensures Consistent(old(Snapshot())) ==> IsInitialized()
    {
      if initialized {
        return;
      }
      EnsureDataDirectory(host);
      LoadKeytar(o.keytarLoads);
      LoadOrGenerateKey(host, o);
      initialized := true;
    }

    method EnsureDataDirectory(host: Host)
      modifies host
      ensures host.Snapshot() == DataDirectoryEnsured(dataDir, sep, old(host.Snapshot()))
    {
      if dataDir !in host.dirs {
        host.dirs := host.dirs + {dataDir};
      }
      var gitignorePath := PathJoin(sep, dataDir, GitignoreFile);
      if gitignorePath !in host.files {
        host.files := host.files[gitignorePath := GitignoreContent];
      }
    }

    /** `loadKeytar` (secure-storage.ts:140-159); `loads` says whether the import provides `setPassword`. */
    method LoadKeytar(loads: bool)
      modifies this
      ensures keytarAvailable == loads
      ensures encryptionKey == old(encryptionKey) && initialized == old(initialized)
    {
      keytarAvailable := loads;
    }

    method LoadOrGenerateKey(host: Host, o: InitOracle)
      modifies this, host
      ensures var (key, d) := KeyResolution(dataDir, sep, old(keytarAvailable), old(host.Snapshot()), o);
        encryptionKey == Some(key) && host.Snapshot() == d
      ensures keytarAvailable == old(keytarAvailable) && initialized == old(initialized)
    {
      if keytarAvailable {
        if !o.vaultReadFails {
          var storedKey := host.vault;
          if storedKey.Some? && storedKey.value != "" {
            encryptionKey := storedKey;
            return;
          }
        }
      }
      var keyFilePath := PathJoin(sep, dataDir, FallbackKeyFile);
      if keyFilePath in host.files {
        if !o.keyFileReadFails {
          encryptionKey := Some(Trim(host.files[keyFilePath]));
          return;
        }
      }
      GenerateNewKey(host, o.randomKey, o.vaultWriteFails);
    }

    method GenerateNewKey(host: Host, random: seq<Byte>, writeFails: bool)
      modifies this, host
      ensures var (key, d) := KeyGeneration(dataDir, sep, keytarAvailable, old(host.Snapshot()), random, writeFails);
        encryptionKey == Some(key) && host.Snapshot() == d
      ensures keytarAvailable == old(keytarAvailable) && initialized == old(initialized)
    {
      var key := Hex(random);
      encryptionKey := Some(key);
      if keytarAvailable {
        if !writeFails {
          host.vault := Some(key);
          return;
        }
      }
      var keyFilePath := PathJoin(sep, dataDir, FallbackKeyFile);
      host.files := host.files[keyFilePath := key];
    }

    method EncryptData(p: Primitives, data: string, iv: seq<Byte>) returns (r: Result<string, Fault>)
      ensures r == EncryptText(p, encryptionKey, data, iv)
    {
      if encryptionKey.None? || encryptionKey.value == "" {
        return Err(KeyNotInitialized);
      }
      var keyBuffer := HexBytes(encryptionKey.value);
      if |keyBuffer| != 32 {
        return Err(InvalidKeyLength);
      }
      var sealed := p.seal(keyBuffer, iv, p.utf8(data));
      var encrypted := p.toBase64(sealed.0);
      var combined := Envelope(p.toBase64(iv), p.toBase64(sealed.1), encrypted);
      return Ok(p.stringify(combined));
    }

    method DecryptData(p: Primitives, encryptedStr: string) returns (r: Result<string, Fault>)
      ensures r == DecryptText(p, encryptionKey, encryptedStr)
    {
      if encryptionKey.None? || encryptionKey.value == "" {
        return Err(KeyNotInitialized);
      }
      var parsed := p.parse(encryptedStr);
      if parsed.None? {
        return Err(MalformedEnvelope);
      }
      var fields := EnvelopeFields(parsed.value);
      if fields.None? {
        return Err(MalformedEnvelope);
      }
      var (iv, authTag, data) := fields.value;
      var ivBuffer := p.fromBase64(iv);
      var authTagBuffer := p.fromBase64(authTag);
      var keyBuffer := HexBytes(encryptionKey.value);
      if |keyBuffer| != 32 {
        return Err(InvalidKeyLength);
      }
      if |ivBuffer| == 0 {
        return Err(InvalidIV);
      }
      var plain := p.open(keyBuffer, ivBuffer, authTagBuffer, p.fromBase64(data));
      if plain.None? {
        return Err(AuthenticationFailed);
      }
      return Ok(p.fromUtf8(plain.value));
    }

    method Encrypt(host: Host, o: InitOracle, p: Primitives, value: Json, filename: string, iv: seq<Byte>)
      returns (r: Result<(), Fault>)
      modifies this, host
      ensures (Snapshot(), host.Snapshot(), r) ==
        EncryptFile(dataDir, sep, old(Snapshot()), old(host.Snapshot()), o, p, value, filename, iv)
    {
      Initialize(host, o);
      var jsonData := p.stringify(value);
      var encrypted := EncryptData(p, jsonData, iv);
      if encrypted.Err? {
        return Err(encrypted.error);
      }
      var filePath := PathJoin(sep, dataDir, filename);
      host.files := host.files[filePath := encrypted.value];
      return Ok(());
    }

    method Decrypt(host: Host, o: InitOracle, p: Primitives, filename: string) returns (r: Option<Json>)
      modifies this, host
      ensures (Snapshot(), host.Snapshot(), r) == DecryptFile(dataDir, sep, old(Snapshot()), old(host.Snapshot()), o, p, filename)
    {
      Initialize(host, o);
      var filePath := PathJoin(sep, dataDir, filename);
      if filePath !in host.files {
        return None;
      }
      var encrypted := host.files[filePath];
      var decrypted := DecryptData(p, encrypted);
      if decrypted.Err? {
        return None;
      }
      return p.parse(decrypted.value);
    }

    method SaveCredentials(host: Host, o: InitOracle, p: Primitives, email: string, password: string, iv: seq<Byte>)
      returns (r: Result<(), Fault>)
      modifies this, host
      ensures (Snapshot(), host.Snapshot(), r) ==
        EncryptFile(dataDir, sep, old(Snapshot()), old(host.Snapshot()), o, p, CredentialsRecord(email, password), CredentialsFile, iv)
      ensures r.Ok? ==> CredentialsExist(host)
    {
      r := Encrypt(host, o, p, CredentialsRecord(email, password), CredentialsFile, iv);
    }

    method LoadCredentials(host: Host, o: InitOracle, p: Primitives) returns (r: Option<Json>)
      modifies this, host
      ensures (Snapshot(), host.Snapshot(), r) == DecryptFile(dataDir, sep, old(Snapshot()), old(host.Snapshot()), o, p, CredentialsFile)
    {
      r := Decrypt(host, o, p, CredentialsFile);
    }

    /** `saveTokens`; `now` is `new Date().toISOString()`. */
    method SaveTokens(host: Host, o: InitOracle, p: Primitives, tokens: map<string, Json>, now: string, iv: seq<Byte>)
      returns (r: Result<(), Fault>)
      modifies this, host
      ensures (Snapshot(), host.Snapshot(), r) ==
        EncryptFile(dataDir, sep, old(Snapshot()), old(host.Snapshot()), o, p, TokensRecord(tokens, now), TokensFile, iv)
      ensures r.Ok? ==> TokensExist(host)
    {
      var tokensWithTimestamp := tokens["savedAt" := JString(now)];
      r := Encrypt(host, o, p, JObject(tokensWithTimestamp), TokensFile, iv);
    }

    method LoadTokens(host: Host, o: InitOracle, p: Primitives) returns (r: Option<Json>)
      modifies this, host
      ensures (Snapshot(), host.Snapshot(), r) == DecryptFile(dataDir, sep, old(Snapshot()), old(host.Snapshot()), o, p, TokensFile)
    {
      r := Decrypt(host, o, p, TokensFile);
    }

    /** `credentialsExist()`: whether the credentials file is on the host's disk. */
    predicate CredentialsExist(host: Host): (r: bool)
      reads this, host
      ensures r <==> PathJoin(sep, dataDir, CredentialsFile) in host.Snapshot().files
    {
      PathJoin(sep, dataDir, CredentialsFile) in host.files
    }

    /** `tokensExist()`: whether the tokens file is on the host's disk. */
    predicate TokensExist(host: Host): (r: bool)
      reads this, host
      ensures r <==> PathJoin(sep, dataDir, TokensFile) in host.Snapshot().files
    {
      PathJoin(sep, dataDir, TokensFile) in host.files
    }

    method DeleteCredentials(host: Host)
      modifies host
      ensures host.Snapshot() == DeleteFile(old(host.Snapshot()), PathJoin(sep, dataDir, CredentialsFile))
      ensures !CredentialsExist(host) && TokensExist(host) == old(TokensExist(host))
    {
      DeletesAreSeparate(dataDir, sep, host.Snapshot());
      var filePath := PathJoin(sep, dataDir, CredentialsFile);
      if filePath in host.files {
        host.files := host.files - {filePath};
      }
    }

    method DeleteTokens(host: Host)
      modifies host
      ensures host.Snapshot() == DeleteFile(old(host.Snapshot()), PathJoin(sep, dataDir, TokensFile))
      ensures !TokensExist(host) && CredentialsExist(host) == old(CredentialsExist(host))
    {
      DeletesAreSeparate(dataDir, sep, host.Snapshot());
      var filePath := PathJoin(sep, dataDir, TokensFile);
      if filePath in host.files {
        host.files := host.files - {filePath};
      }
    }

    /** `getConfig`; `vaultReadFails` says whether its own `getPassword` throws. */
    method GetConfig(host: Host, o: InitOracle, vaultReadFails: bool) returns (c: EncryptionConfig)
      modifies this, host
      ensures (Snapshot(), host.Snapshot()) == Initialization(dataDir, sep, old(Snapshot()), old(host.Snapshot()), o)
      ensures c == Config(dataDir, sep, platform, old(Snapshot()), old(host.Snapshot()), o, vaultReadFails)
    {
      Initialize(host, o);
      var keyStorageMethod := FileFallback;
      var keyExists := false;
      if keytarAvailable {
        if !vaultReadFails {
          var storedKey := host.vault;
          if storedKey.Some? && storedKey.value != "" {
            keyStorageMethod := Keytar;
            keyExists := true;
          }
        }
      }
      if keyStorageMethod == FileFallback {
        keyExists := PathJoin(sep, dataDir, FallbackKeyFile) in host.files;
      }
      c := EncryptionConfig(dataDir, keyStorageMethod, keyExists, CredentialsExist(host), TokensExist(host),
                            platform, keytarAvailable);
    }

    /** `getDataDirectory()`: the platform's directory chosen at construction. */
    function GetDataDirectory(): (r: string)
      ensures r == GetDataDir(platform, home, env)
    {
      dataDir
    }

    /** `isInitialized()`: initialised and holding a key (possibly the empty string). */
    predicate IsInitialized(): (r: bool)
      reads this
      ensures r <==> Snapshot().initialized && Snapshot().encryptionKey.Some?
    {
      initialized && encryptionKey.Some?
    }

    /** `migrateKeyToVault`; `readFails` and `writeFails` say whether its vault calls throw. */
    method MigrateKeyToVault(host: Host, o: InitOracle, readFails: bool, writeFails: bool) returns (ok: bool)
      modifies this, host
      ensures (Snapshot(), host.Snapshot(), ok) == Migrate(dataDir, sep, old(Snapshot()), old(host.Snapshot()), o, readFails, writeFails)
    {
      Initialize(host, o);
      if !keytarAvailable {
        return false;
      }
      if encryptionKey.None? || encryptionKey.value == "" {
        return false;
      }
      if !readFails {
        var existingKey := host.vault;
        if existingKey.Some? && existingKey.value != "" {
          return true;
        }
      }
      if writeFails {
        return false;
      }
      host.vault := encryptionKey;
      var keyFilePath := PathJoin(sep, dataDir, FallbackKeyFile);
      if keyFilePath in host.files {
        host.files := host.files - {keyFilePath};
      }
      return true;
    }

    method ResetInitialization()
      modifies this
      ensures Snapshot() == Reset(old(Snapshot()))
      ensures !IsInitialized()
    {
      initialized := false;
      encryptionKey := None;
    }
  }
}
