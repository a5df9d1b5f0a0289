/** Process configuration read from the environment, and the file-extension
    allow-lists used by the upload endpoints. */
module Config {
  import opened Strs

  datatype Config = Config(
    port: string,
    databasePath: string,
    jwtSecret: string,
    tlsKeyFile: string,
    tlsCertFile: string,
    maxUploadSize: int,
    storagePath: string,
    allowedAudioTypes: seq<string>,
    allowedImageTypes: seq<string>)

  /** The process environment; an unset variable reads as "". */
  type Env = map<string, string>

  const MaxUploadSize: int := 50 * 1024 * 1024

  /** getEnv: the variable's value when it is set and non-empty, else the default. */
  function GetEnv(env: Env, key: string, default: string): (v: string)
    ensures key in env && env[key] != "" ==> v == env[key]
    ensures !(key in env && env[key] != "") ==> v == default
  {
    if key in env && env[key] != "" then env[key] else default
  }

  /** LoadConfig: each string setting is its variable when set and
      non-empty, and its default otherwise; the sizes and allow-lists are fixed. */
  function LoadConfig(env: Env): (c: Config)
    ensures c.port == GetEnv(env, "PORT", "2701")
    ensures c.databasePath == GetEnv(env, "DATABASE_PATH", "./tunetudo.db")
    ensures c.jwtSecret == GetEnv(env, "JWT_SECRET", "sup3rdup3rs3cr3t")
    ensures c.tlsKeyFile == GetEnv(env, "TLS_KEY_FILE", "./certs/server.key")
    ensures c.tlsCertFile == GetEnv(env, "TLS_CERT_FILE", "./certs/server.crt")
    ensures c.storagePath == GetEnv(env, "STORAGE_PATH", "./storage")
    ensures c.maxUploadSize == 52428800
    ensures c.allowedAudioTypes == [".mp4", ".wav", ".mp3"]
    ensures c.allowedImageTypes == [".jpg", ".jpeg", ".png"]
  {
    Config(
      port := GetEnv(env, "PORT", "2701"),
      databasePath := GetEnv(env, "DATABASE_PATH", "./tunetudo.db"),
      jwtSecret := GetEnv(env, "JWT_SECRET", "sup3rdup3rs3cr3t"),
      tlsKeyFile := GetEnv(env, "TLS_KEY_FILE", "./certs/server.key"),
      tlsCertFile := GetEnv(env, "TLS_CERT_FILE", "./certs/server.crt"),
      maxUploadSize := MaxUploadSize,
      storagePath := GetEnv(env, "STORAGE_PATH", "./storage"),
      allowedAudioTypes := [".mp4", ".wav", ".mp3"],
      allowedImageTypes := [".jpg", ".jpeg", ".png"])
  }

  /** With nothing set (or everything set to ""), every field takes its default. */
  lemma LoadConfigDefaults(env: Env)
    requires forall k :: k in env ==> env[k] == ""
    ensures LoadConfig(env).port == "2701"
    ensures LoadConfig(env).databasePath == "./tunetudo.db"
    ensures LoadConfig(env).jwtSecret == "sup3rdup3rs3cr3t"
    ensures LoadConfig(env).tlsKeyFile == "./certs/server.key"
    ensures LoadConfig(env).tlsCertFile == "./certs/server.crt"
    ensures LoadConfig(env).storagePath == "./storage"
  {
  }

  /** The allow-list loop: does `name` end with one of `exts`? */
  function AnySuffix(name: string, exts: seq<string>): (b: bool)
    ensures b <==> exists i :: 0 <= i < |exts| && HasSuffix(name, exts[i])
  {
    if exts == [] then false
    else HasSuffix(name, exts[0]) || AnySuffix(name, exts[1..])
  }

  /** The audio allow-list check: the lower-cased name ends with one of the
      configured extensions. */
  function IsAllowedAudioType(c: Config, filename: string): (b: bool)
    ensures b <==> exists i :: 0 <= i < |c.allowedAudioTypes| && HasSuffix(Lower(filename), c.allowedAudioTypes[i])
  {
    AnySuffix(Lower(filename), c.allowedAudioTypes)
  }

  function IsAllowedImageType(c: Config, filename: string): (b: bool)
    ensures b <==> exists i :: 0 <= i < |c.allowedImageTypes| && HasSuffix(Lower(filename), c.allowedImageTypes[i])
  {
    AnySuffix(Lower(filename), c.allowedImageTypes)
  }

  /** Under the loaded configuration the audio check is exactly a
      case-insensitive test for the three suffixes. */
  lemma AudioTypeSpec(env: Env, filename: string)
    ensures IsAllowedAudioType(LoadConfig(env), filename) <==>
      HasSuffix(Lower(filename), ".mp4") || HasSuffix(Lower(filename), ".wav") || HasSuffix(Lower(filename), ".mp3")
  {
    var exts := LoadConfig(env).allowedAudioTypes;
    assert exts[0] == ".mp4" && exts[1] == ".wav" && exts[2] == ".mp3";
  }

  lemma ImageTypeSpec(env: Env, filename: string)
    ensures IsAllowedImageType(LoadConfig(env), filename) <==>
      HasSuffix(Lower(filename), ".jpg") || HasSuffix(Lower(filename), ".jpeg") || HasSuffix(Lower(filename), ".png")
  {
    var exts := LoadConfig(env).allowedImageTypes;
    assert exts[0] == ".jpg" && exts[1] == ".jpeg" && exts[2] == ".png";
  }

  /** Both checks give the same answer for a name and its lower-cased form. */
  lemma AllowListsCaseInsensitive(c: Config, filename: string)
    ensures IsAllowedAudioType(c, filename) == IsAllowedAudioType(c, Lower(filename))
    ensures IsAllowedImageType(c, filename) == IsAllowedImageType(c, Lower(filename))
  {
    LowerIdempotent(filename);
  }

  /** An upper-case extension passes the loaded audio check. */
  lemma UpperCaseAudioAccepted()
    ensures IsAllowedAudioType(LoadConfig(map[]), "SONG.MP3")
  {
    AudioTypeSpec(map[], "SONG.MP3");
    var s := Lower("SONG.MP3");
    assert s == "song.mp3";
    assert s[4..] == ".mp3" by {
      assert |s[4..]| == 4;
      assert forall i :: 0 <= i < 4 ==> s[4..][i] == ".mp3"[i];
    }
  }
}
