/** The CORS origin pattern of the Authority-facing service
    (src/matrixrmapi/app.py): the Authority's base URI with its dots made
    literal and any subdomain admitted after the scheme. The manifest it is
    read from is a parameter here: the matrixrmapi config module is not
    part of this model. */
module App {
  import opened Common
  import opened PyStr
  import Manifest

  const Scheme: string := "https://"
  const DotPattern: string := "\\."
  const SchemePattern: string := "https://(.*\\.)?"

  /** Every dot made literal: each "." becomes a backslash and a dot. */
  function EscapeDots(s: string): string
  {
    ReplaceAll(s, ".", DotPattern)
  }

  /** The origin pattern of a base URI: first every dot is made literal,
      then each "https://" is followed by an optional group of subdomains. */
  function DeploymentDomainRegex(base: string): string
  {
    ReplaceAll(EscapeDots(base), Scheme, SchemePattern)
  }

  /** The pattern for a manifest: `manifest["rasenmaeher"]["init"]["base_uri"]`
      must exist and be a string (`.replace` on anything else raises). */
  function CorsOriginRegex(manifest: Json): (r: Result<string>)
    ensures SubscriptPath(manifest, ["rasenmaeher", "init", "base_uri"]).Err? ==>
              r == Err(SubscriptPath(manifest, ["rasenmaeher", "init", "base_uri"]).error)
    ensures r.Ok? <==> SubscriptPath(manifest, ["rasenmaeher", "init", "base_uri"]).Ok?
                       && SubscriptPath(manifest, ["rasenmaeher", "init", "base_uri"]).value.JString?
    ensures r.Ok? ==>
              r.value == DeploymentDomainRegex(SubscriptPath(manifest, ["rasenmaeher", "init", "base_uri"]).value.s)
  {
    match SubscriptPath(manifest, ["rasenmaeher", "init", "base_uri"])
    case Err(e) => Err(e)
    case Ok(JString(base)) => Ok(DeploymentDomainRegex(base))
    case Ok(_) => Err(TypeMismatch)
  }

  /** Escaping one character at a time. */
  lemma EscapeDotsStep(s: string)
    requires s != []
    ensures s[0] == '.' ==> EscapeDots(s) == DotPattern + EscapeDots(s[1..])
    ensures s[0] != '.' ==> EscapeDots(s) == [s[0]] + EscapeDots(s[1..])
  {
    assert s[..1] == "." <==> s[0] == '.';
  }

  /** Escaping distributes over concatenation. */
  lemma {:induction false} EscapeDotsAppend(a: string, b: string)
    ensures EscapeDots(a + b) == EscapeDots(a) + EscapeDots(b)
    decreases |a|
  {
    if a == [] {
      assert a + b == b;
    } else {
      EscapeDotsStep(a);
      EscapeDotsStep(a + b);
      assert (a + b)[1..] == a[1..] + b;
      EscapeDotsAppend(a[1..], b);
    }
  }

  /** An escaped string never begins with a bare dot: every dot is led by
      a backslash. */
  lemma EscapedStart(s: string)
    ensures EscapeDots(s) == [] || EscapeDots(s)[0] != '.'
  {
    if s != [] {
      EscapeDotsStep(s);
    }
  }

  /** Reading a pattern back: `\.` becomes a dot, every other character
      stays. */
  function Unescape(p: string): string
    decreases |p|
  {
    if p == [] then []
    else if |p| >= 2 && p[0] == '\\' && p[1] == '.' then "." + Unescape(p[2..])
    else [p[0]] + Unescape(p[1..])
  }

  /** Escaping loses nothing: the base URI can be read back from the
      escaped text, so distinct base URIs give distinct escaped texts. */
  lemma {:induction false} UnescapeEscapeDots(s: string)
    ensures Unescape(EscapeDots(s)) == s
    decreases |s|
  {
    if s != [] {
      EscapeDotsStep(s);
      UnescapeEscapeDots(s[1..]);
      var rest := EscapeDots(s[1..]);
      if s[0] == '.' {
        assert (DotPattern + rest)[2..] == rest;
      } else {
        EscapedStart(s[1..]);
        assert ([s[0]] + rest)[1..] == rest;
      }
      assert [s[0]] + s[1..] == s;
    }
  }

  /** A pattern free of dots and backslashes at the start of an escaped
      string was already at the start of the original. */
  lemma {:induction false} EscapedPrefix(pat: string, s: string)
    requires '.' !in pat && '\\' !in pat
    requires |pat| <= |EscapeDots(s)| && EscapeDots(s)[..|pat|] == pat
    ensures |pat| <= |s| && s[..|pat|] == pat
    decreases |s|
  {
    if pat != [] {
      EscapeDotsStep(s);
      var rest := EscapeDots(s[1..]);
      assert EscapeDots(s)[0] == pat[0];
      assert s[0] != '.';
      assert rest[..|pat| - 1] == pat[1..] by {
        assert EscapeDots(s)[1..] == rest;
      }
      EscapedPrefix(pat[1..], s[1..]);
      assert s[..|pat|] == [s[0]] + s[1..][..|pat| - 1];
    }
  }

  /** Escaping dots creates no new occurrence of a pattern that has no dot
      and no backslash (such as "https://"). */
  lemma {:induction false} EscapeCreatesNoPattern(pat: string, s: string)
    requires |pat| > 0 && '.' !in pat && '\\' !in pat
    requires IsSubstring(pat, EscapeDots(s))
    ensures IsSubstring(pat, s)
    decreases |s|
  {
    var e := EscapeDots(s);
    if e[..|pat|] == pat {
      EscapedPrefix(pat, s);
    } else {
      assert IsSubstring(pat, e[1..]);
      EscapeDotsStep(s);
      var rest := EscapeDots(s[1..]);
      if s[0] == '.' {
        assert e[1..] == "." + rest;
        assert ("." + rest)[1..] == rest;
        assert IsSubstring(pat, rest);
      } else {
        assert e[1..] == rest;
      }
      EscapeCreatesNoPattern(pat, s[1..]);
    }
  }

  /** For a base URI "https://" + host whose host holds no further
      "https://", the pattern is the scheme, then an optional run of
      subdomains ending in a literal dot, then the host with literal dots. */
  lemma {:induction false} RegexOfHttpsBase(host: string)
    requires !IsSubstring(Scheme, host)
    ensures DeploymentDomainRegex(Scheme + host) == SchemePattern + EscapeDots(host)
    ensures Unescape(DeploymentDomainRegex(Scheme + host)[|SchemePattern|..]) == host
  {
    SchemeFacts();
    EscapeDotsAppend(Scheme, host);
    var e := EscapeDots(host);
    if IsSubstring(Scheme, e) {
      EscapeCreatesNoPattern(Scheme, host);
    }
    ReplaceAllPrefix(Scheme, e, SchemePattern);
    ReplaceAllAbsent(e, Scheme, SchemePattern);
    UnescapeEscapeDots(host);
    assert (SchemePattern + e)[|SchemePattern|..] == e;
  }

  /** The scheme has neither a dot nor a backslash, so escaping keeps it. */
  lemma SchemeFacts()
    ensures |Scheme| == 8 && '.' !in Scheme && '\\' !in Scheme && 't' in Scheme
    ensures EscapeDots(Scheme) == Scheme
  {
    SchemeChars();
    NotSubstringWithoutChar(".", Scheme, '.');
    ReplaceAllAbsent(Scheme, ".", DotPattern);
  }

  lemma SchemeChars()
    ensures |Scheme| == 8 && '.' !in Scheme && '\\' !in Scheme && Scheme[1] == 't'
  {
  }

  /** The subdomain group starts at index 9 with a bare dot; before it there
      is no dot. */
  lemma SchemePatternFacts()
    ensures |SchemePattern| == 15 && SchemePattern[9] == '.'
    ensures EscapeDots(SchemePattern[..9]) == SchemePattern[..9]
  {
    NotSubstringWithoutChar(".", SchemePattern[..9], '.');
    ReplaceAllAbsent(SchemePattern[..9], ".", DotPattern);
  }

  /** A base containing neither "." nor "https://" is its own pattern. */
  lemma UnchangedWithoutDotsOrScheme(base: string)
    requires !IsSubstring(".", base) && !IsSubstring(Scheme, base)
    ensures DeploymentDomainRegex(base) == base
  {
    ReplaceAllAbsent(base, ".", DotPattern);
    ReplaceAllAbsent(base, Scheme, SchemePattern);
  }

  /** The example of a base URI with a port. */
  lemma Example(base: string)
    requires base == "https://a.b:1/"
    ensures DeploymentDomainRegex(base) == "https://(.*\\.)?a\\.b:1/"
  {
    ExampleHost(base);
    RegexOfHttpsBase(base[8..]);
    EscapeExampleHost();
    ExamplePattern();
  }

  lemma ExamplePattern()
    ensures SchemePattern + "a\\.b:1/" == "https://(.*\\.)?a\\.b:1/"
  {
  }

  lemma ExampleHost(base: string)
    requires base == "https://a.b:1/"
    ensures base == Scheme + base[8..] && base[8..] == "a.b:1/"
    ensures !IsSubstring(Scheme, base[8..])
  {
    SchemeChars();
    assert 't' !in base[8..];
    NotSubstringWithoutChar(Scheme, base[8..], 't');
  }

  lemma EscapeExampleHost()
    ensures EscapeDots("a.b:1/") == "a\\.b:1/"
  {
  }

  /** The order of the two replacements matters: escaping after inserting
      the subdomain group would escape the group's own dot as well, so the
      pattern would begin "https://(\\." instead of "https://(.". */
  lemma {:induction false} OrderMatters(host: string)
    requires !IsSubstring(Scheme, host)
    ensures EscapeDots(ReplaceAll(Scheme + host, Scheme, SchemePattern))
            != DeploymentDomainRegex(Scheme + host)
  {
    RegexOfHttpsBase(host);
    SchemePatternFacts();
    ReplaceAllPrefix(Scheme, host, SchemePattern);
    ReplaceAllAbsent(host, Scheme, SchemePattern);
    var inserted := ReplaceAll(Scheme + host, Scheme, SchemePattern);
    var head, tail := SchemePattern[..9], SchemePattern[9..] + host;
    assert inserted == head + tail;
    EscapeDotsAppend(head, tail);
    EscapeDotsStep(tail);
    assert EscapeDots(inserted)[9] == '\\';
    assert DeploymentDomainRegex(Scheme + host)[9] == '.';
  }

  const DefaultHost: string := "localmaeher.dev.pvarki.fi:4439/"

  /** The default base URI is https on DefaultHost. */
  lemma DefaultBaseUri()
    ensures SubscriptPath(Manifest.DefaultManifest, ["rasenmaeher", "init", "base_uri"])
            == Ok(JString(Scheme + DefaultHost))
  {
    Manifest.DefaultManifestFields();
    DefaultBaseUriSplit();
  }

  lemma DefaultBaseUriSplit()
    ensures "https://localmaeher.dev.pvarki.fi:4439/" == Scheme + DefaultHost
  {
  }

  /** For the default manifest of src/rmfpapi/config.py the pattern text is
      the scheme pattern followed by the dot-escaped default host. */
  lemma DefaultManifestRegex()
    ensures CorsOriginRegex(Manifest.DefaultManifest) == Ok(SchemePattern + EscapeDots(DefaultHost))
  {
    DefaultBaseUri();
    DefaultHostHasNoScheme(DefaultHost);
    RegexOfHttpsBase(DefaultHost);
  }

  lemma DefaultHostHasNoScheme(host: string)
    requires host == DefaultHost
    ensures !IsSubstring(Scheme, host)
  {
    SchemeChars();
    assert 't' !in host;
    NotSubstringWithoutChar(Scheme, host, 't');
  }
}
