/**
 * Taking new connection settings (connector/syncthingconnection.cpp,
 * loadSelfSignedCertificate, applySettings and the connect and reconnect overloads
 * that take settings).
 */
module Configuration {
  import opened Types
  import opened Engine
  import opened Lifecycle

  /** The SSL errors expected for a self-signed certificate `c`. */
  function ExpectedErrorsFor(c: string): (r: seq<SslError>)
    ensures |r| == 4 && forall k :: 0 <= k < 4 ==> r[k].certificate == c
  {
    [SslError(UnableToGetLocalIssuerCertificate, c), SslError(UnableToVerifyFirstCertificate, c),
     SslError(SelfSignedCertificate, c), SslError(HostNameMismatch, c)]
  }

  /**
   * Loading the daemon's self-signed certificate: the expected SSL errors are cleared in
   * any case. Without a secure or local connection nothing else happens; a certificate
   * that cannot be located or loaded is reported; a loaded one is expected with the four
   * errors a self-signed certificate raises. The result says whether one was loaded.
   */
  function LoadSelfSignedCertificate(s: ConnState, lookup: CertificateLookup): (r: (ConnState, bool))
    ensures r.1 <==> lookup.Loaded?
    ensures r.0.settings.expectedSslErrors == if lookup.Loaded? then ExpectedErrorsFor(lookup.certificate) else []
    ensures r.0 == s.(settings := r.0.settings, signals := r.0.signals)
    ensures r.0.settings == s.settings.(expectedSslErrors := r.0.settings.expectedSslErrors)
    ensures r.0.signals == s.signals + match lookup
      case NotLocated => [Error("Unable to locate certificate used by Syncthing GUI.", OverallConnection)]
      case NotLoaded => [Error("Unable to load certificate used by Syncthing GUI.", OverallConnection)]
      case _ => []
  {
    var s1 := s.(settings := s.settings.(expectedSslErrors := []));
    match lookup
    case NotSecure => (s1, false)
    case NotLocal => (s1, false)
    case NotLocated => (Emit(s1, Error("Unable to locate certificate used by Syncthing GUI.", OverallConnection)), false)
    case NotLoaded => (Emit(s1, Error("Unable to load certificate used by Syncthing GUI.", OverallConnection)), false)
    case Loaded(c) => (s1.(settings := s1.settings.(expectedSslErrors := ExpectedErrorsFor(c))), true)
  }

  /** Whether the credentials differ from what the settings ask for. */
  predicate CredentialsDiffer(s: Settings, cs: ConnectionSettings)
  {
    (cs.authEnabled && (s.user != cs.userName || s.password != cs.password)) ||
    (!cs.authEnabled && (s.user != [] || s.password != []))
  }

  /**
   * Applying connection settings. URL, API key and credentials that differ are taken
   * over and require a reconnect. Settings without expected SSL errors load the
   * daemon's certificate (and receive the resulting errors); this requires a reconnect
   * when a certificate was loaded or errors were expected before. Differing expected
   * errors are taken over and require a reconnect. The poll and reconnect intervals are
   * always taken over. The result is the new state, the settings as written back, and
   * whether a reconnect is required.
   */
  function ApplySettings(s: ConnState, cs: ConnectionSettings, lookup: CertificateLookup): (r: (ConnState, ConnectionSettings, bool))
    ensures r.1 == cs.(expectedSslErrors := r.0.settings.expectedSslErrors)
    ensures r.0.dirs == s.dirs && r.0.devs == s.devs && r.0.status == s.status && r.0.flags == s.flags && r.0.net == s.net
  {
    var urlChanged := s.settings.syncthingUrl != cs.syncthingUrl;
    var keyChanged := s.settings.apiKey != cs.apiKey;
    var credChanged := CredentialsDiffer(s.settings, cs);
    var s2 := s.(settings := WithCredentials(s.settings.(syncthingUrl := cs.syncthingUrl, apiKey := cs.apiKey), cs));
    var (s3, cs3, sslChanged) := ApplyExpectedErrors(s2, cs, lookup);
    var s5 := s3.(settings := s3.settings.(trafficPollInterval := cs.trafficPollInterval,
                                           devStatsPollInterval := cs.devStatsPollInterval,
                                           autoReconnectInterval := cs.reconnectInterval));
    (s5, cs3, urlChanged || keyChanged || credChanged || sslChanged)
  }

  /** The credentials the settings ask for, taken over when they differ. */
  function WithCredentials(st: Settings, cs: ConnectionSettings): (r: Settings)
    ensures r.user == (if cs.authEnabled then cs.userName else []) && r.password == (if cs.authEnabled then cs.password else [])
    ensures r == st.(user := r.user, password := r.password)
    ensures !CredentialsDiffer(r, cs)
  {
    if CredentialsDiffer(st, cs) then
      (if cs.authEnabled then st.(user := cs.userName, password := cs.password) else st.(user := [], password := []))
    else st
  }

  /**
   * The expected SSL errors part of applying settings: given errors that differ are
   * taken over; no given errors means loading the certificate, whose errors are
   * written back into the settings.
   */
  function ApplyExpectedErrors(s: ConnState, cs: ConnectionSettings, lookup: CertificateLookup): (r: (ConnState, ConnectionSettings, bool))
    ensures r.1 == cs.(expectedSslErrors := r.0.settings.expectedSslErrors)
    ensures r.0.settings == s.settings.(expectedSslErrors := r.0.settings.expectedSslErrors)
    ensures r.0 == s.(settings := r.0.settings, signals := r.0.signals)
    ensures r.0.settings.expectedSslErrors == (if cs.expectedSslErrors != [] then cs.expectedSslErrors
                                              else if lookup.Loaded? then ExpectedErrorsFor(lookup.certificate) else [])
    ensures r.2 <==> (cs.expectedSslErrors != [] && s.settings.expectedSslErrors != cs.expectedSslErrors) ||
                     (cs.expectedSslErrors == [] && (lookup.Loaded? || s.settings.expectedSslErrors != []))
  {
    if cs.expectedSslErrors == [] then
      var previouslyExpected := s.settings.expectedSslErrors != [];
      var (s4, ok) := LoadSelfSignedCertificate(s, lookup);
      (s4, cs.(expectedSslErrors := s4.settings.expectedSslErrors), ok || (previouslyExpected && !ok))
    else if s.settings.expectedSslErrors != cs.expectedSslErrors then
      (s.(settings := s.settings.(expectedSslErrors := cs.expectedSslErrors)), cs, true)
    else (s, cs, false)
  }

  /**
   * The settings are adopted: URL, key and intervals as given, the credentials as given
   * when authentication is enabled and empty otherwise, and the expected SSL errors as
   * given or, when none are given, those of the loaded certificate (if any).
   */
  lemma ApplySettingsAdopts(s: ConnState, cs: ConnectionSettings, lookup: CertificateLookup)
    ensures var st := ApplySettings(s, cs, lookup).0.settings;
      st.syncthingUrl == cs.syncthingUrl && st.apiKey == cs.apiKey &&
      st.user == (if cs.authEnabled then cs.userName else []) &&
      st.password == (if cs.authEnabled then cs.password else []) &&
      st.trafficPollInterval == cs.trafficPollInterval && st.devStatsPollInterval == cs.devStatsPollInterval &&
      st.autoReconnectInterval == cs.reconnectInterval &&
      st.expectedSslErrors == (if cs.expectedSslErrors != [] then cs.expectedSslErrors
                               else if lookup.Loaded? then ExpectedErrorsFor(lookup.certificate) else [])
  {
  }

  /**
   * A reconnect is required exactly when URL, key or credentials change, or the
   * expected SSL errors are given and differ, or are not given and a certificate is
   * loaded or errors were expected before.
   */
  lemma ApplySettingsReconnectRequired(s: ConnState, cs: ConnectionSettings, lookup: CertificateLookup)
    ensures ApplySettings(s, cs, lookup).2 <==>
      s.settings.syncthingUrl != cs.syncthingUrl || s.settings.apiKey != cs.apiKey ||
      CredentialsDiffer(s.settings, cs) ||
      (cs.expectedSslErrors != [] && s.settings.expectedSslErrors != cs.expectedSslErrors) ||
      (cs.expectedSslErrors == [] && (lookup.Loaded? || s.settings.expectedSslErrors != []))
  {
  }

  /**
   * Applying the written-back settings a second time, with the same certificate
   * lookup, requires no reconnect and leaves the settings as they are.
   */
  lemma ApplySettingsIdempotent(s: ConnState, cs: ConnectionSettings, lookup: CertificateLookup)
    ensures var (s1, cs1, _) := ApplySettings(s, cs, lookup);
      !ApplySettings(s1, cs1, lookup).2 && ApplySettings(s1, cs1, lookup).0.settings == s1.settings
  {
    ApplySettingsAdopts(s, cs, lookup);
    var (s1, cs1, _) := ApplySettings(s, cs, lookup);
    ApplySettingsAdopts(s1, cs1, lookup);
    ApplySettingsReconnectRequired(s1, cs1, lookup);
  }

  /** Connecting with settings: they are applied and, if that requires it, the connection reconnects. */
  function ConnectWith(s: ConnState, cs: ConnectionSettings, lookup: CertificateLookup): (r: (ConnState, ConnectionSettings))
    ensures var (s1, cs1, required) := ApplySettings(s, cs, lookup);
      r.1 == cs1 && r.0 == (if required then Reconnect(s1) else s1)
  {
    var (s1, cs1, required) := ApplySettings(s, cs, lookup);
    (if required then Reconnect(s1) else s1, cs1)
  }

  /** Reconnecting with settings: they are applied and the connection reconnects in any case. */
  function ReconnectWith(s: ConnState, cs: ConnectionSettings, lookup: CertificateLookup): (r: (ConnState, ConnectionSettings))
    ensures r.0.flags.autoReconnectTries == 0 && !r.0.flags.reconnectTimerActive
    ensures r.0.settings.syncthingUrl == cs.syncthingUrl && r.0.settings.apiKey == cs.apiKey
  {
    var (s1, cs1, _) := ApplySettings(s, cs, lookup);
    ApplySettingsAdopts(s, cs, lookup);
    (Reconnect(s1), cs1)
  }

  /**
   * Connecting with unchanged settings (the same written-back settings and lookup)
   * does not disturb an established connection.
   */
  lemma ConnectWithSameSettingsKeepsConnection(s: ConnState, cs: ConnectionSettings, lookup: CertificateLookup)
    ensures var (s1, cs1, _) := ApplySettings(s, cs, lookup);
      ConnectWith(s1, cs1, lookup).0.net == s1.net && ConnectWith(s1, cs1, lookup).0.status == s1.status
  {
    ApplySettingsIdempotent(s, cs, lookup);
  }
}
