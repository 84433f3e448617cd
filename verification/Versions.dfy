/** Semantic version keys: `_version_key` and the order it induces. */
module Versions {
  import opened Text

  datatype Version = Version(major: nat, minor: nat, patch: nat)

  /** One dot-separated component: `0|[1-9][0-9]*`. */
  predicate Component(s: string)
  {
    AllDigits(s) && Canonical(FromChars(s))
  }

  /** `_version_key`: None where the source raises "invalid semantic version". */
  function VersionKey(s: string): (v: Option<Version>)
  {
    var parts := Split(s, '.');
    if |parts| == 3 && Component(parts[0]) && Component(parts[1]) && Component(parts[2]) then
      Some(Version(Value(FromChars(parts[0])), Value(FromChars(parts[1])), Value(FromChars(parts[2]))))
    else None
  }

  function RenderVersion(v: Version): (s: string)
  {
    Join([ToChars(Digits(v.major)), ToChars(Digits(v.minor)), ToChars(Digits(v.patch))], '.')
  }

  /** Precedence by section 11 of Semantic Versioning 2.0.0, for versions without pre-release parts. */
  predicate Precedes(a: Version, b: Version)
  {
    a.major < b.major ||
    (a.major == b.major && (a.minor < b.minor || (a.minor == b.minor && a.patch < b.patch)))
  }

  lemma ComponentRoundTrip(s: string, n: nat)
    ensures Component(s) ==> ToChars(Digits(Value(FromChars(s)))) == s
    ensures Component(ToChars(Digits(n))) && Value(FromChars(ToChars(Digits(n)))) == n
  {
    if Component(s) {
      ValueRoundTrip(FromChars(s));
      CharsRoundTrip(s, FromChars(s));
    }
    DigitsRoundTrip(n);
    CharsRoundTrip(ToChars(Digits(n)), Digits(n));
  }

  /** Every key has exactly one spelling, so equal keys come from equal strings. */
  lemma VersionKeyRoundTrip(s: string, v: Version)
    ensures VersionKey(RenderVersion(v)) == Some(v)
    ensures VersionKey(s).Some? ==> RenderVersion(VersionKey(s).value) == s
  {
    var texts := [ToChars(Digits(v.major)), ToChars(Digits(v.minor)), ToChars(Digits(v.patch))];
    ComponentRoundTrip("", v.major);
    ComponentRoundTrip("", v.minor);
    ComponentRoundTrip("", v.patch);
    assert forall i | 0 <= i < 3 :: AllDigits(texts[i]) && '.' !in texts[i];
    SplitJoin(texts, '.');
    if VersionKey(s).Some? {
      JoinSplit(s, '.');
      var parts := Split(s, '.');
      ComponentRoundTrip(parts[0], 0);
      ComponentRoundTrip(parts[1], 0);
      ComponentRoundTrip(parts[2], 0);
      assert parts == [parts[0], parts[1], parts[2]];
    }
  }

  lemma VersionKeyInjective(a: string, b: string)
    requires VersionKey(a).Some? && VersionKey(a) == VersionKey(b)
    ensures a == b
  {
    VersionKeyRoundTrip(a, VersionKey(a).value);
    VersionKeyRoundTrip(b, VersionKey(b).value);
  }
}
