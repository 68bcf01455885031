/** The server configuration after it has been read: `applyDefaults` fills the
    fields left empty, `finalize` maps the log level and checks each provider's name
    and ID, and `validate` checks the TLS files, that authentication has a provider,
    and that every provider is complete and named once. Reading the file, YAML,
    path resolution and URL parsing are left out; the file system `validate`
    consults arrives as two functions. Error texts are modelled as the cases of
    `ConfigError`. */
module Config {
  import opened Wrappers
  import Strings

  /** One `oidc_providers` entry; `Scopes` is `None` for a nil list. */
  datatype Provider = Provider(
    Id: string, Name: string, IssuerURL: string, ClientID: string, ClientSecret: string,
    RedirectURL: string, Scopes: Option<seq<string>>, LogoutRedirectURL: string)

  /** The four `slog` levels the configuration can name. */
  datatype Level = LevelDebug | LevelInfo | LevelWarn | LevelError

  datatype ConfigError =
    | InvalidLogLevel(level: string)
    | NameRequired(index: nat)
    | IdRequired(index: nat, name: string)
    | TLSFilesMissing
    | CertStat(cause: string)
    | CertUnreadable(cause: string)
    | KeyStat(cause: string)
    | KeyTooPermissive(key: string, perm: bv32)
    | KeyUnreadable(cause: string)
    | NoProviders
    | DuplicateName(name: string)
    | FieldRequired(index: nat, name: string, field: string)

  // ---------------------------------------------------------------- defaults

  const DefaultDBPath := "habits.db"
  const DefaultHost := "0.0.0.0"
  const DefaultPort := 3000
  const DefaultAPIBaseURL := "http://localhost:3000"
  const DefaultAuthToken := "XXX"
  const DefaultLogLevel := "debug"
  const DefaultThresholdHours := 3
  const DefaultScopes := ["openid", "profile", "offline_access"]

  /** A field's value after defaulting: the default when the field is empty. */
  function OrDefault(s: string, default: string): string {
    if s == "" then default else s
  }

  function OrDefaultInt(n: int, default: int): int {
    if n == 0 then default else n
  }

  /** Defaulting keeps a set value, fills an empty one with a non-empty default,
      and a second pass changes nothing. */
  lemma OrDefaultMeans(s: string, default: string, n: int, defaultInt: int)
    requires default != "" && defaultInt != 0
    ensures s != "" ==> OrDefault(s, default) == s
    ensures OrDefault(s, default) != "" && OrDefault(OrDefault(s, default), default) == OrDefault(s, default)
    ensures n != 0 ==> OrDefaultInt(n, defaultInt) == n
    ensures OrDefaultInt(n, defaultInt) != 0 && OrDefaultInt(OrDefaultInt(n, defaultInt), defaultInt) == OrDefaultInt(n, defaultInt)
  {
  }

  /** A provider without a scope list gets the default one; nothing else changes. */
  function WithDefaultScopes(p: Provider): (r: Provider)
    ensures r.Scopes.Some?
    ensures p.Scopes.Some? ==> r == p
    ensures p.Scopes.None? ==> r == p.(Scopes := Some(DefaultScopes))
  {
    if p.Scopes.None? then p.(Scopes := Some(DefaultScopes)) else p
  }

  function AllWithDefaultScopes(ps: seq<Provider>): (r: seq<Provider>)
    ensures |r| == |ps| && forall i :: 0 <= i < |ps| ==> r[i] == WithDefaultScopes(ps[i])
  {
    seq(|ps|, i requires 0 <= i < |ps| => WithDefaultScopes(ps[i]))
  }

  /** Filling the scopes twice fills them once. */
  lemma AllWithDefaultScopesIdempotent(ps: seq<Provider>)
    ensures AllWithDefaultScopes(AllWithDefaultScopes(ps)) == AllWithDefaultScopes(ps)
  {
  }

  /** The `applyDefaults` loop over the providers, in place on the list. */
  method FillScopes(ps: seq<Provider>) returns (r: seq<Provider>)
    ensures r == AllWithDefaultScopes(ps)
    ensures forall i :: 0 <= i < |r| ==> r[i].Scopes.Some?
  {
    r := ps;
    var i := 0;
    while i < |r|
      invariant 0 <= i <= |r| == |ps|
      invariant forall j :: 0 <= j < i ==> r[j] == WithDefaultScopes(ps[j])
      invariant forall j :: i <= j < |r| ==> r[j] == ps[j]
    {
      if r[i].Scopes.None? {
        r := r[i := r[i].(Scopes := Some(DefaultScopes))];
      }
      i := i + 1;
    }
  }

  // ---------------------------------------------------------------- log level

  /** The `finalize` switch: the level named by the lower-cased text, or `None`. */
  function ParseLevel(s: string): (r: Option<Level>)
    ensures r.Some? <==> Strings.ToLower(s) in {"debug", "info", "warn", "error"}
  {
    var l := Strings.ToLower(s);
    if l == "debug" then Some(LevelDebug)
    else if l == "info" then Some(LevelInfo)
    else if l == "warn" then Some(LevelWarn)
    else if l == "error" then Some(LevelError)
    else None
  }

  /** Case does not matter. */
  lemma ParseLevelIgnoresCase(s: string)
    ensures ParseLevel(s) == ParseLevel(Strings.ToLower(s))
  {
    Strings.ToLowerIdempotent(s);
  }

  /** The default level, and an upper-case spelling. */
  lemma ParseLevelExamples()
    ensures ParseLevel(DefaultLogLevel) == Some(LevelDebug)
    ensures ParseLevel("WARN") == Some(LevelWarn)
    ensures ParseLevel("verbose").None?
  {
    assert Strings.ToLower("WARN") == "warn";
    assert Strings.ToLower("verbose") == "verbose";
  }

  // ---------------------------------------------------------------- provider checks

  /** The first missing name or ID `finalize` meets, in list order. */
  function FinalizeProviderError(ps: seq<Provider>): (r: Option<ConfigError>)
    ensures r.None? <==> forall i :: 0 <= i < |ps| ==> ps[i].Name != "" && ps[i].Id != ""
    decreases |ps|
  {
    if |ps| == 0 then None
    else
      var init := ps[..|ps| - 1];
      var p := ps[|ps| - 1];
      assert forall i :: 0 <= i < |init| ==> init[i] == ps[i];
      if FinalizeProviderError(init).Some? then FinalizeProviderError(init)
      else if p.Name == "" then Some(NameRequired(|ps| - 1))
      else if p.Id == "" then Some(IdRequired(|ps| - 1, p.Name))
      else None
  }

  /** The checks `validate` makes on provider `i`, given the names seen before it:
      name, uniqueness, then ID, issuer, redirect URL, client ID and secret. */
  function ProviderError(p: Provider, i: nat, seen: set<string>): (r: Option<ConfigError>)
    ensures r.None? <==>
              && p.Name != "" && p.Name !in seen && p.Id != "" && p.IssuerURL != ""
              && p.RedirectURL != "" && p.ClientID != "" && p.ClientSecret != ""
    ensures p.Name != "" && p.Name in seen ==> r == Some(DuplicateName(p.Name))
  {
    if p.Name == "" then Some(NameRequired(i))
    else if p.Name in seen then Some(DuplicateName(p.Name))
    else if p.Id == "" then Some(IdRequired(i, p.Name))
    else if p.IssuerURL == "" then Some(FieldRequired(i, p.Name, "issuer_url"))
    else if p.RedirectURL == "" then Some(FieldRequired(i, p.Name, "redirect_url"))
    else if p.ClientID == "" then Some(FieldRequired(i, p.Name, "client_id"))
    else if p.ClientSecret == "" then Some(FieldRequired(i, p.Name, "client_secret"))
    else None
  }

  function Names(ps: seq<Provider>): (r: set<string>)
    ensures forall n :: n in r <==> exists i :: 0 <= i < |ps| && ps[i].Name == n
  {
    set i | 0 <= i < |ps| :: ps[i].Name
  }

  /** The first error of the `validate` loop over the providers, in list order. */
  function ValidateProvidersError(ps: seq<Provider>): Option<ConfigError>
    decreases |ps|
  {
    if |ps| == 0 then None
    else
      var init := ps[..|ps| - 1];
      if ValidateProvidersError(init).Some? then ValidateProvidersError(init)
      else ProviderError(ps[|ps| - 1], |ps| - 1, Names(init))
  }

  predicate Complete(p: Provider) {
    p.Name != "" && p.Id != "" && p.IssuerURL != "" && p.RedirectURL != "" && p.ClientID != "" &&
    p.ClientSecret != ""
  }

  predicate DistinctNames(ps: seq<Provider>) {
    forall i, j :: 0 <= i < j < |ps| ==> ps[i].Name != ps[j].Name
  }

  /** The loop accepts exactly the lists of complete providers with distinct names. */
  lemma {:induction false} ValidateProvidersErrorMeans(ps: seq<Provider>)
    ensures ValidateProvidersError(ps).None? <==>
              (forall i :: 0 <= i < |ps| ==> Complete(ps[i])) && DistinctNames(ps)
    decreases |ps|
  {
    if |ps| > 0 {
      var init, last := ps[..|ps| - 1], |ps| - 1;
      ValidateProvidersErrorMeans(init);
      DistinctNamesSnoc(ps);
      assert forall i :: 0 <= i < |init| ==> init[i] == ps[i];
      assert (forall i :: 0 <= i < |ps| ==> Complete(ps[i])) <==>
             (forall i :: 0 <= i < |init| ==> Complete(init[i])) && Complete(ps[last]);
      if ValidateProvidersError(init).None? {
        assert ValidateProvidersError(ps) == ProviderError(ps[last], last, Names(init));
      }
    }
  }

  /** Names stay distinct when the new one is not among those before it. */
  lemma DistinctNamesSnoc(ps: seq<Provider>)
    requires |ps| > 0
    ensures DistinctNames(ps) <==>
              DistinctNames(ps[..|ps| - 1]) && ps[|ps| - 1].Name !in Names(ps[..|ps| - 1])
  {
    var init, last := ps[..|ps| - 1], |ps| - 1;
    if DistinctNames(ps) {
      forall i, j | 0 <= i < j < |init| ensures init[i].Name != init[j].Name {
        assert init[i] == ps[i] && init[j] == ps[j];
      }
      forall j | 0 <= j < |init| ensures init[j].Name != ps[last].Name {
        assert init[j] == ps[j];
      }
    }
    if DistinctNames(init) && ps[last].Name !in Names(init) {
      forall i, j | 0 <= i < j < |ps| ensures ps[i].Name != ps[j].Name {
        assert init[i] == ps[i];
        if j < last {
          assert init[j] == ps[j];
        }
      }
    }
  }

  // ---------------------------------------------------------------- TLS

  /** Group and other permission bits of a file's mode. */
  predicate TooPermissive(perm: bv32) {
    perm & 0x3F != 0
  }

  /** `0600` and `0400` pass; `0640` and `0644` do not. */
  lemma TooPermissiveExamples()
    ensures !TooPermissive(0x180) && !TooPermissive(0x100)
    ensures TooPermissive(0x1A0) && TooPermissive(0x1A4)
  {
  }

  /** The TLS part of `validate`. `stat` gives a regular file's permission bits or
      the error `os.Stat` (or the regular-file test) reports; `open` the error of
      opening the file, if any. */
  function TLSError(enabled: bool, cert: string, key: string, stat: string -> Result<bv32, string>,
                    open: string -> Option<string>): (r: Option<ConfigError>)
    ensures !enabled ==> r.None?
    ensures enabled ==>
              (r.None? <==> && cert != "" && key != ""
                            && stat(cert).Ok? && open(cert).None?
                            && stat(key).Ok? && !TooPermissive(stat(key).value) && open(key).None?)
    ensures enabled && (cert == "" || key == "") ==> r == Some(TLSFilesMissing)
    // with both names given, the first failing step decides the error
    ensures enabled && cert != "" && key != "" ==>
              && (stat(cert).Err? ==> r == Some(CertStat(stat(cert).error)))
              && (stat(cert).Ok? && open(cert).Some? ==> r == Some(CertUnreadable(open(cert).value)))
              && (stat(cert).Ok? && open(cert).None? && stat(key).Err? ==> r == Some(KeyStat(stat(key).error)))
              && (stat(cert).Ok? && open(cert).None? && stat(key).Ok? && TooPermissive(stat(key).value) ==>
                    r == Some(KeyTooPermissive(key, stat(key).value)))
              && ((stat(cert).Ok? && open(cert).None? && stat(key).Ok? && !TooPermissive(stat(key).value) &&
                   open(key).Some?) ==> r == Some(KeyUnreadable(open(key).value)))
    ensures enabled && stat(key).Ok? && TooPermissive(stat(key).value) ==> r.Some?
  {
    if !enabled then None
    else if cert == "" || key == "" then Some(TLSFilesMissing)
    else if stat(cert).Err? then Some(CertStat(stat(cert).error))
    else if open(cert).Some? then Some(CertUnreadable(open(cert).value))
    else if stat(key).Err? then Some(KeyStat(stat(key).error))
    else if TooPermissive(stat(key).value) then Some(KeyTooPermissive(key, stat(key).value))
    else if open(key).Some? then Some(KeyUnreadable(open(key).value))
    else None
  }

  // ---------------------------------------------------------------- the configuration

  class Config {
    var AuthEnabled: bool
    var AuthToken: string
    var DBPath: string
    var APIBaseURL: string
    var LogLevel: string
    var Host: string
    var Port: int
    var TLSEnabled: bool
    var CertFile: string
    var KeyFile: string
    var Providers: seq<Provider>
    var NotifyEmail: string
    var ResendAPIKey: string
    var ThresholdHours: int
    /** `slog`'s zero level is Info. */
    var SLogLevel: Level

    /** The zero configuration a YAML document without fields decodes to. */
    constructor ()
      ensures !AuthEnabled && AuthToken == "" && DBPath == "" && APIBaseURL == "" && LogLevel == ""
      ensures Host == "" && Port == 0 && !TLSEnabled && CertFile == "" && KeyFile == "" && Providers == []
      ensures NotifyEmail == "" && ResendAPIKey == "" && ThresholdHours == 0 && SLogLevel == LevelInfo
    {
      AuthEnabled, AuthToken, DBPath, APIBaseURL, LogLevel := false, "", "", "", "";
      Host, Port, TLSEnabled, CertFile, KeyFile, Providers := "", 0, false, "", "", [];
      NotifyEmail, ResendAPIKey, ThresholdHours, SLogLevel := "", "", 0, LevelInfo;
    }

    /** Every field left empty (or zero) gets its default; a field already set
        keeps its value; providers get the default scopes. */
    method ApplyDefaults()
      modifies this`DBPath, this`Host, this`Port, this`APIBaseURL, this`AuthToken, this`LogLevel,
               this`ThresholdHours, this`Providers
      ensures DBPath == OrDefault(old(DBPath), DefaultDBPath)
      ensures Host == OrDefault(old(Host), DefaultHost)
      ensures Port == OrDefaultInt(old(Port), DefaultPort)
      ensures APIBaseURL == OrDefault(old(APIBaseURL), DefaultAPIBaseURL)
      ensures AuthToken == OrDefault(old(AuthToken), DefaultAuthToken)
      ensures LogLevel == OrDefault(old(LogLevel), DefaultLogLevel)
      ensures ThresholdHours == OrDefaultInt(old(ThresholdHours), DefaultThresholdHours)
      ensures Providers == AllWithDefaultScopes(old(Providers))
    {
      var providers := FillScopes(Providers);
      DBPath, Host, Port, APIBaseURL := OrDefault(DBPath, DefaultDBPath), OrDefault(Host, DefaultHost),
                                        OrDefaultInt(Port, DefaultPort), OrDefault(APIBaseURL, DefaultAPIBaseURL);
      AuthToken, LogLevel := OrDefault(AuthToken, DefaultAuthToken), OrDefault(LogLevel, DefaultLogLevel);
      ThresholdHours, Providers := OrDefaultInt(ThresholdHours, DefaultThresholdHours), providers;
    }

    /** The log-level switch, then each provider's name and ID in order. Path
        resolution and URL parsing are not modelled. */
    method Finalize() returns (err: Option<ConfigError>)
      modifies this`SLogLevel
      ensures ParseLevel(old(LogLevel)).None? ==> err == Some(InvalidLogLevel(old(LogLevel))) && SLogLevel == old(SLogLevel)
      ensures ParseLevel(old(LogLevel)).Some? ==>
                SLogLevel == ParseLevel(old(LogLevel)).value && err == FinalizeProviderError(old(Providers))
    {
      var level := ParseLevel(LogLevel);
      if level.None? {
        return Some(InvalidLogLevel(LogLevel));
      }
      SLogLevel := level.value;
      var i := 0;
      while i < |Providers|
        invariant 0 <= i <= |Providers|
        invariant FinalizeProviderError(Providers[..i]).None?
      {
        assert Providers[..i + 1][..i] == Providers[..i];
        var p := Providers[i];
        if p.Name == "" {
          FinalizeProviderErrorSticks(Providers, i + 1);
          return Some(NameRequired(i));
        }
        if p.Id == "" {
          FinalizeProviderErrorSticks(Providers, i + 1);
          return Some(IdRequired(i, p.Name));
        }
        i := i + 1;
      }
      assert Providers[..i] == Providers;
      err := None;
    }

    /** `validate`: the TLS files, a provider when authentication is on, then the
        providers in order with the names seen so far. It changes nothing. */
    method Validate(stat: string -> Result<bv32, string>, open: string -> Option<string>)
      returns (err: Option<ConfigError>)
      ensures TLSError(TLSEnabled, CertFile, KeyFile, stat, open).Some? ==>
                err == TLSError(TLSEnabled, CertFile, KeyFile, stat, open)
      ensures TLSError(TLSEnabled, CertFile, KeyFile, stat, open).None? && AuthEnabled && Providers == [] ==>
                err == Some(NoProviders)
      ensures TLSError(TLSEnabled, CertFile, KeyFile, stat, open).None? && !(AuthEnabled && Providers == []) ==>
                err == ValidateProvidersError(Providers)
    {
      err := TLSError(TLSEnabled, CertFile, KeyFile, stat, open);
      if err.Some? {
        return;
      }
      if |Providers| == 0 && AuthEnabled {
        return Some(NoProviders);
      }
      var ps := Providers;
      var seen: set<string> := {};
      var i := 0;
      while i < |ps|
        invariant 0 <= i <= |ps|
        invariant ValidateProvidersError(ps[..i]).None?
        invariant seen == Names(ps[..i])
      {
        var p := ps[i];
        ValidateStep(ps, i);
        var e := ProviderError(p, i, seen);
        if e.Some? {
          ValidateProvidersErrorSticks(ps, i + 1);
          return e;
        }
        seen := seen + {p.Name};
        i := i + 1;
      }
      assert ps[..i] == ps;
    }
  }

  /** One more turn of the `validate` loop: the next provider's error, judged
      against the names before it, and its name joins them. */
  lemma ValidateStep(ps: seq<Provider>, i: nat)
    requires i < |ps| && ValidateProvidersError(ps[..i]).None?
    ensures ValidateProvidersError(ps[..i + 1]) == ProviderError(ps[i], i, Names(ps[..i]))
    ensures Names(ps[..i + 1]) == Names(ps[..i]) + {ps[i].Name}
  {
    var front := ps[..i + 1];
    assert front[..i] == ps[..i] && front[i] == ps[i];
    forall n ensures n in Names(front) <==> n in Names(ps[..i]) + {ps[i].Name} {
      if n in Names(front) {
        var j :| 0 <= j < |front| && front[j].Name == n;
        if j < i { assert ps[..i][j] == front[j]; }
      }
      if n in Names(ps[..i]) {
        var j :| 0 <= j < i && ps[..i][j].Name == n;
        assert front[j] == ps[..i][j];
      }
    }
  }

  lemma {:induction false} FinalizeProviderErrorSticks(ps: seq<Provider>, k: nat)
    requires k <= |ps| && FinalizeProviderError(ps[..k]).Some?
    ensures FinalizeProviderError(ps) == FinalizeProviderError(ps[..k])
    decreases |ps|
  {
    if k < |ps| {
      assert ps[..|ps| - 1][..k] == ps[..k];
      FinalizeProviderErrorSticks(ps[..|ps| - 1], k);
    } else {
      assert ps[..k] == ps;
    }
  }

  lemma {:induction false} ValidateProvidersErrorSticks(ps: seq<Provider>, k: nat)
    requires k <= |ps| && ValidateProvidersError(ps[..k]).Some?
    ensures ValidateProvidersError(ps) == ValidateProvidersError(ps[..k])
    decreases |ps|
  {
    if k < |ps| {
      assert ps[..|ps| - 1][..k] == ps[..k];
      ValidateProvidersErrorSticks(ps[..|ps| - 1], k);
    } else {
      assert ps[..k] == ps;
    }
  }

  /** Two providers under one name are refused, whatever else they carry. */
  lemma DuplicateNameRejected(ps: seq<Provider>, i: int, j: int)
    requires 0 <= i < j < |ps| && ps[i].Name == ps[j].Name
    ensures ValidateProvidersError(ps).Some?
  {
    ValidateProvidersErrorMeans(ps);
  }

  /** With TLS off, authentication on and no provider, the configuration is refused. */
  method AuthWithoutProviders(stat: string -> Result<bv32, string>, open: string -> Option<string>)
    returns (err: Option<ConfigError>)
    ensures err == Some(NoProviders)
  {
    var c := new Config();
    c.AuthEnabled := true;
    c.ApplyDefaults();
    err := c.Validate(stat, open);
  }

  /** An empty configuration loads with the defaults: port 3000 on 0.0.0.0, debug
      logging, and a set port is kept. */
  method DefaultsThenFinalize(port: int) returns (err: Option<ConfigError>, c: Config)
    ensures err.None? && c.Host == DefaultHost && c.SLogLevel == LevelDebug
    ensures c.Port == (if port == 0 then DefaultPort else port)
  {
    c := new Config();
    c.Port := port;
    c.ApplyDefaults();
    ParseLevelExamples();
    err := c.Finalize();
  }
}
