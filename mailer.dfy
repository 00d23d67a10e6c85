/** The mail transport's configuration check. The four settings are read from
    the environment once; they are a value here. */
module Mailer {
  import opened Common

  /** The SMTP settings as the transport reads them. An unset host, user or
      password is the empty string. `port` is `Number(SMTP_PORT || 0)`: `None`
      stands for a value that is not a number (NaN). */
  datatype SmtpConfig = SmtpConfig(host: string, port: Option<int>, user: string, pass: string)

  /** The four settings, in the order the check reports them. */
  datatype Setting = SmtpHost | SmtpPort | SmtpUser | SmtpPass

  const Order: seq<Setting> := [SmtpHost, SmtpPort, SmtpUser, SmtpPass]

  const MissingPrefix := "Missing SMTP configuration: "

  /** The environment variable a setting comes from. */
  function Name(s: Setting): string {
    match s
    case SmtpHost => "SMTP_HOST"
    case SmtpPort => "SMTP_PORT"
    case SmtpUser => "SMTP_USER"
    case SmtpPass => "SMTP_PASS"
  }

  lemma NameInjective(a: Setting, b: Setting)
    requires Name(a) == Name(b)
    ensures a == b
  {
    assert Name(a)[5..7] == Name(b)[5..7];
  }

  /** Position of a setting in the reporting order. */
  function Rank(s: Setting): (r: nat)
    ensures r < |Order| && Order[r] == s
  {
    match s
    case SmtpHost => 0
    case SmtpPort => 1
    case SmtpUser => 2
    case SmtpPass => 3
  }

  /** A setting counts as present when its value is truthy: a non-empty string,
      a port that is a number other than 0. */
  predicate IsSet(c: SmtpConfig, s: Setting) {
    match s
    case SmtpHost => c.host != ""
    case SmtpPort => c.port.Some? && c.port.value != 0
    case SmtpUser => c.user != ""
    case SmtpPass => c.pass != ""
  }

  /** The setting, as a one-element list when it is not present. */
  function IfMissing(c: SmtpConfig, s: Setting): seq<Setting> {
    if IsSet(c, s) then [] else [s]
  }

  /** The settings that are not present, in reporting order. */
  function MissingSettings(c: SmtpConfig): seq<Setting> {
    IfMissing(c, SmtpHost) + IfMissing(c, SmtpPort) + IfMissing(c, SmtpUser) + IfMissing(c, SmtpPass)
  }

  /** Their names, as the message lists them. */
  function MissingNames(c: SmtpConfig): seq<string> {
    var m := MissingSettings(c);
    seq(|m|, i requires 0 <= i < |m| => Name(m[i]))
  }

  /** The missing list holds every absent setting and only those, once each and
      in the order host, port, user, password. */
  lemma MissingSettingsExact(c: SmtpConfig)
    ensures forall s :: s in MissingSettings(c) <==> !IsSet(c, s)
    ensures forall i, j :: 0 <= i < j < |MissingSettings(c)| ==> Rank(MissingSettings(c)[i]) < Rank(MissingSettings(c)[j])
  {
  }

  /** The message names a setting exactly when that setting is absent; it is
      empty exactly when all four are present. */
  lemma MissingNamesExact(c: SmtpConfig)
    ensures forall s :: Name(s) in MissingNames(c) <==> !IsSet(c, s)
    ensures MissingNames(c) == [] <==> forall s :: IsSet(c, s)
  {
    MissingSettingsExact(c);
    var m := MissingSettings(c);
    forall s | s in m ensures Name(s) in MissingNames(c) {
      var i :| 0 <= i < |m| && m[i] == s;
      assert MissingNames(c)[i] == Name(s);
    }
    forall s | Name(s) in MissingNames(c) ensures s in m {
      var i :| 0 <= i < |m| && MissingNames(c)[i] == Name(s);
      NameInjective(m[i], s);
    }
    if MissingNames(c) != [] {
      assert !IsSet(c, m[0]);
    }
  }

  /** `getMailerConfigError()`: no error when every setting is present, otherwise
      one message naming each missing setting. */
  method GetMailerConfigError(c: SmtpConfig) returns (r: Option<string>)
    ensures r.None? <==> (forall s :: IsSet(c, s))
    ensures r.Some? ==> r.value == MissingPrefix + Join(MissingNames(c), ", ") && MissingNames(c) != []
  {
    var missing: seq<string> := [];
    if c.host == "" {
      missing := missing + ["SMTP_HOST"];
    }
    if !(c.port.Some? && c.port.value != 0) {
      missing := missing + ["SMTP_PORT"];
    }
    if c.user == "" {
      missing := missing + ["SMTP_USER"];
    }
    if c.pass == "" {
      missing := missing + ["SMTP_PASS"];
    }
    assert missing == MissingNames(c);
    MissingNamesExact(c);
    if |missing| == 0 {
      return None;
    }
    return Some(MissingPrefix + Join(missing, ", "));
  }
}
