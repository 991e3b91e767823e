/** The option name tables of the profile serialisation (src/common/core-extensions.hpp). */
module OptionTables {
  import opened Outcomes
  import opened OptionJson

  const META_PREFIXES: seq<string> := [
    "ALLOW_UNSIGNED", "APP_VERIFY", "AUTOLOGIN_SPEC", "CLI_PREF_", "DYNAMIC", "EXTERNAL_PKI",
    "GENERIC", "HOST_FIELD", "HOST_LIST", "SITE_LIST", "ICON_", "IS_", "NO_WEB", "ORGANIZATION",
    "PORTAL_URL", "WEB_CA", "WSHOST"]

  /** Access Server meta-options, recognised by prefix. */
  predicate IsMeta(name: string) {
    exists i :: 0 <= i < |META_PREFIXES| && META_PREFIXES[i] <= name
  }

  predicate IsTag(name: string) {
    name in {"auth-user-pass", "ca", "cert", "connection", "dh", "extra-certs", "http-proxy-user-pass",
             "key", "pkcs12", "tls-auth", "tls-crypt", "tls-crypt-v2"}
  }

  predicate NeedsArray(name: string) {
    name in {"connection", "peer-fingerprint", "pull-filter", "remote", "route", "route-ipv6"}
  }

  /** The syntax the services run with, given the Core library's lexer and renderer. */
  function OpenVpnSyntax(parseLine: string -> Result<Opt>, render: seq<string> -> string): Syntax {
    Syntax((n: string) => IsMeta(n), (n: string) => IsTag(n), (n: string) => NeedsArray(n), parseLine, render)
  }

  /** A meta-option's name starts with a capital letter. */
  lemma MetaIsCapital(name: string)
    requires IsMeta(name)
    ensures |name| > 0 && 'A' <= name[0] <= 'Z'
  {
    var i :| 0 <= i < |META_PREFIXES| && META_PREFIXES[i] <= name;
    assert |META_PREFIXES[i]| > 0 && 'A' <= META_PREFIXES[i][0] <= 'Z';
    assert name[0] == META_PREFIXES[i][0];
  }
}
