/** The connection-string clean-up of `utils/db.py`: a SQLAlchemy-style
    `postgresql+psycopg2://` scheme is rewritten to the plain `postgresql://`
    that psycopg2 accepts. Connecting and querying are not modelled. */
module DbUrl {
  import opened Common

  const DriverScheme: string := "postgresql+psycopg2://"
  const PlainScheme: string := "postgresql://"

  /** Python's `s.replace(pat, rep, 1)`: the first occurrence of `pat`, if any,
      replaced by `rep`. */
  function ReplaceFirst(s: string, pat: string, rep: string): string
    requires |pat| > 0
    decreases |s|
  {
    if |s| < |pat| then s
    else if s[..|pat|] == pat then rep + s[|pat|..]
    else [s[0]] + ReplaceFirst(s[1..], pat, rep)
  }

  /** `_normalize_database_url(database_url)`: a URL with the driver scheme
      gets the plain scheme and keeps everything after it verbatim; any other
      URL is returned unchanged. */
  function NormalizeDatabaseUrl(url: string): (r: string)
    ensures StartsWith(url, DriverScheme) ==> r == PlainScheme + url[|DriverScheme|..]
    ensures !StartsWith(url, DriverScheme) ==> r == url
  {
    if StartsWith(url, DriverScheme) then ReplaceFirst(url, DriverScheme, PlainScheme) else url
  }

  /** The result never carries the driver scheme. */
  lemma NormalizedHasNoDriverScheme(url: string)
    ensures !StartsWith(NormalizeDatabaseUrl(url), DriverScheme)
  {
    if StartsWith(url, DriverScheme) {
      var r := NormalizeDatabaseUrl(url);
      assert r == PlainScheme + url[|DriverScheme|..];
      assert r[10] == PlainScheme[10] == ':';
      assert DriverScheme[10] == '+';
    }
  }

  /** So normalising twice is normalising once. */
  lemma NormalizeIdempotent(url: string)
    ensures NormalizeDatabaseUrl(NormalizeDatabaseUrl(url)) == NormalizeDatabaseUrl(url)
  {
    NormalizedHasNoDriverScheme(url);
  }

  /** The rewrite loses nothing: two URLs that normalise alike were equal, or
      one is the other with the plain scheme swapped for the driver scheme. */
  lemma NormalizeMergesOnlySchemes(a: string, b: string)
    requires NormalizeDatabaseUrl(a) == NormalizeDatabaseUrl(b)
    ensures a == b || a == DriverScheme + b[|PlainScheme|..] || b == DriverScheme + a[|PlainScheme|..]
  {
    if StartsWith(a, DriverScheme) && StartsWith(b, DriverScheme) {
      var ra := a[|DriverScheme|..];
      var rb := b[|DriverScheme|..];
      assert PlainScheme + ra == PlainScheme + rb;
      assert ra == (PlainScheme + ra)[|PlainScheme|..];
      assert rb == (PlainScheme + rb)[|PlainScheme|..];
      assert a == a[..|DriverScheme|] + ra;
      assert b == b[..|DriverScheme|] + rb;
    } else if StartsWith(a, DriverScheme) {
      var ra := a[|DriverScheme|..];
      assert b == PlainScheme + ra;
      assert b[|PlainScheme|..] == ra;
      assert a == a[..|DriverScheme|] + ra;
    } else if StartsWith(b, DriverScheme) {
      var rb := b[|DriverScheme|..];
      assert a == PlainScheme + rb;
      assert a[|PlainScheme|..] == rb;
      assert b == b[..|DriverScheme|] + rb;
    }
  }
}
