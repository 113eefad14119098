/** Cache.getFile: a locator that names a remote resource is downloaded once
    into a temporary directory and served from there afterwards; any other
    locator is a local file path. The directory is modelled as a map from
    path to contents, the download as a function from URL to contents. */
module Cache {
  import opened Wrappers
  import Strings

  /** The alternatives of the scheme group `(https?|wss?|HTTPS?|WSS?)`. */
  const RemoteSchemes: seq<string> := ["http", "https", "ws", "wss", "HTTP", "HTTPS", "WS", "WSS"]

  /** The characters `.` does not match in a java.util.regex pattern. */
  predicate IsLineTerminator(c: char) {
    c == '\n' || c == '\r' || c == '\U{0085}' || c == '\U{2028}' || c == '\U{2029}'
  }

  predicate NoLineTerminator(s: string) {
    forall i :: 0 <= i < |s| ==> !IsLineTerminator(s[i])
  }

  /** The language of `(https?|wss?|HTTPS?|WSS?):.*` under `matches()`: the
      whole locator is one alternative, a colon, and text without line breaks. */
  ghost predicate InSchemeLanguage(url: string) {
    exists i :: 0 <= i < |RemoteSchemes|
      && Strings.StartsWith(url, RemoteSchemes[i] + ":")
      && NoLineTerminator(url[|RemoteSchemes[i]| + 1..])
  }

  /** One alternative `base s?` followed by ':': the length of the scheme. */
  function MatchAlternative(url: string, base: string, s: char): (r: Option<nat>)
    ensures r.Some? ==> r.value < |url| && url[r.value] == ':'
  {
    if !Strings.StartsWith(url, base) then None
    else if |url| > |base| && url[|base|] == ':' then Some(|base|)
    else if |url| > |base| + 1 && url[|base|] == s && url[|base| + 1] == ':' then Some(|base| + 1)
    else None
  }

  /** The scheme group as the matcher tries it, alternative by alternative. */
  function SchemeLength(url: string): Option<nat> {
    var a := MatchAlternative(url, "http", 's');
    if a.Some? then a else
    var b := MatchAlternative(url, "ws", 's');
    if b.Some? then b else
    var c := MatchAlternative(url, "HTTP", 'S');
    if c.Some? then c else
    MatchAlternative(url, "WS", 'S')
  }

  /** `schemePattern.matcher(url).matches()`. */
  predicate IsRemote(url: string) {
    var n := SchemeLength(url);
    n.Some? && n.value < |url| && NoLineTerminator(url[n.value + 1..])
  }

  lemma AlternativeSound(url: string, base: string, s: char, i: nat, j: nat)
    requires i < |RemoteSchemes| && RemoteSchemes[i] == base
    requires j < |RemoteSchemes| && RemoteSchemes[j] == base + [s]
    requires MatchAlternative(url, base, s).Some?
    ensures var n := MatchAlternative(url, base, s).value;
      exists k :: 0 <= k < |RemoteSchemes| && |RemoteSchemes[k]| == n
        && Strings.StartsWith(url, RemoteSchemes[k] + ":")
  {
    var n := MatchAlternative(url, base, s).value;
    if n == |base| {
      assert url[..|base| + 1] == url[..|base|] + [':'];
      assert Strings.StartsWith(url, RemoteSchemes[i] + ":");
    } else {
      assert url[..|base| + 2] == url[..|base|] + [s] + [':'];
      assert Strings.StartsWith(url, RemoteSchemes[j] + ":");
    }
  }

  /** Every locator the matcher accepts is in the language of the pattern. */
  lemma IsRemoteSound(url: string)
    requires IsRemote(url)
    ensures InSchemeLanguage(url)
  {
    var n := SchemeLength(url).value;
    if MatchAlternative(url, "http", 's').Some? {
      AlternativeSound(url, "http", 's', 0, 1);
    } else if MatchAlternative(url, "ws", 's').Some? {
      AlternativeSound(url, "ws", 's', 2, 3);
    } else if MatchAlternative(url, "HTTP", 'S').Some? {
      AlternativeSound(url, "HTTP", 'S', 4, 5);
    } else {
      AlternativeSound(url, "WS", 'S', 6, 7);
    }
    var k :| 0 <= k < |RemoteSchemes| && |RemoteSchemes[k]| == n
      && Strings.StartsWith(url, RemoteSchemes[k] + ":");
    assert url[|RemoteSchemes[k]| + 1..] == url[n + 1..];
  }

  /** Every locator in the language of the pattern is accepted by the matcher. */
  lemma IsRemoteComplete(url: string)
    requires InSchemeLanguage(url)
    ensures IsRemote(url)
  {
    var i :| 0 <= i < |RemoteSchemes|
      && Strings.StartsWith(url, RemoteSchemes[i] + ":")
      && NoLineTerminator(url[|RemoteSchemes[i]| + 1..]);
    var scheme := RemoteSchemes[i];
    assert url[..|scheme|] == scheme && url[|scheme|] == ':' by {
      assert url[..|scheme| + 1] == scheme + ":";
      assert url[..|scheme| + 1][..|scheme|] == scheme;
    }
    SchemeLengthFinds(url, i);
  }

  /** The matcher accepts exactly the language of the pattern. */
  lemma IsRemoteIff(url: string)
    ensures IsRemote(url) <==> InSchemeLanguage(url)
  {
    if IsRemote(url) {
      IsRemoteSound(url);
    }
    if InSchemeLanguage(url) {
      IsRemoteComplete(url);
    }
  }

  /** A locator that disagrees with a prefix at some position does not start with it. */
  lemma DiffersAt(url: string, prefix: string, k: nat)
    requires k < |prefix| && k < |url| && url[k] != prefix[k]
    ensures !Strings.StartsWith(url, prefix)
  {
    if |prefix| <= |url| {
      assert url[..|prefix|][k] == url[k];
    }
  }

  /** An alternative `base s?` that the locator spells out, followed by a
      colon, is matched with its own length. */
  lemma AlternativeFinds(url: string, base: string, s: char, n: nat)
    requires s != ':' && n < |url|
    requires n == |base| || (n == |base| + 1 && url[|base|] == s)
    requires url[..n][..|base|] == base && url[n] == ':'
    ensures MatchAlternative(url, base, s) == Some(n)
  {
    assert url[..|base|] == url[..n][..|base|];
  }

  /** When the locator starts with an alternative and a colon, the matcher
      finds that alternative. */
  lemma SchemeLengthFinds(url: string, i: nat)
    requires i < |RemoteSchemes|
    requires |RemoteSchemes[i]| < |url|
    requires url[..|RemoteSchemes[i]|] == RemoteSchemes[i] && url[|RemoteSchemes[i]|] == ':'
    ensures SchemeLength(url) == Some(|RemoteSchemes[i]|)
  {
    var scheme := RemoteSchemes[i];
    var n := |scheme|;
    assert url[0] == url[..n][0] == scheme[0];
    if i == 0 || i == 1 {
      if i == 1 { assert url[4] == url[..n][4] == 's'; }
      AlternativeFinds(url, "http", 's', n);
    } else if i == 2 || i == 3 {
      DiffersAt(url, "http", 0);
      if i == 3 { assert url[2] == url[..n][2] == 's'; }
      AlternativeFinds(url, "ws", 's', n);
    } else if i == 4 || i == 5 {
      DiffersAt(url, "http", 0);
      DiffersAt(url, "ws", 0);
      if i == 5 { assert url[4] == url[..n][4] == 'S'; }
      AlternativeFinds(url, "HTTP", 'S', n);
    } else {
      DiffersAt(url, "http", 0);
      DiffersAt(url, "ws", 0);
      DiffersAt(url, "HTTP", 0);
      if i == 7 { assert url[2] == url[..n][2] == 'S'; }
      AlternativeFinds(url, "WS", 'S', n);
    }
  }

  /** A lower-case scheme marks a remote locator. */
  lemma HttpIsRemote()
    ensures IsRemote("http://a/pet")
  {
    assert Strings.StartsWith("http://a/pet", "http");
  }

  /** So does an upper-case one, with its `S`. */
  lemma UpperHttpsIsRemote()
    ensures IsRemote("HTTPS://a")
  {
    assert Strings.StartsWith("HTTPS://a", "HTTP");
  }

  /** WebSocket schemes are remote too. */
  lemma WssIsRemote()
    ensures IsRemote("wss://a")
  {
    assert Strings.StartsWith("wss://a", "ws");
  }

  /** A locator whose first character starts no alternative is local. */
  lemma NoSchemeIsLocal(url: string)
    requires |url| > 0 && url[0] != 'h' && url[0] != 'w' && url[0] != 'H' && url[0] != 'W'
    ensures !IsRemote(url)
  {
    assert !Strings.StartsWith(url, "http") && !Strings.StartsWith(url, "ws")
      && !Strings.StartsWith(url, "HTTP") && !Strings.StartsWith(url, "WS") by {
      if |url| >= 2 {
        assert url[..2][0] == url[0];
      }
      if |url| >= 4 {
        assert url[..4][0] == url[0];
      }
    }
  }

  /** Scheme letters in mixed case are local: the pattern is case-sensitive. */
  lemma MixedCaseIsLocal()
    ensures !IsRemote("Http://a")
  {
    assert "Http://a"[..4][1] == 't' && "Http://a"[..2][0] == 'H';
  }

  /** A scheme not followed directly by a colon is local. */
  lemma MissingColonIsLocal()
    ensures !IsRemote("http//a")
  {
    assert Strings.StartsWith("http//a", "http");
  }

  /** Another scheme, or a plain path, is local. */
  lemma OtherLocatorsAreLocal()
    ensures !IsRemote("ftp://a")
    ensures !IsRemote("/tmp/p.json")
  {
    NoSchemeIsLocal("ftp://a");
    NoSchemeIsLocal("/tmp/p.json");
  }

  class Cache {
    /** The temporary directory, created once. */
    const tempDirectory: string
    /** URLEncoder.encode with UTF-8. */
    const encode: string -> string
    /** The files under the temporary directory and their contents. */
    var files: map<string, seq<bv8>>
    /** The URLs downloaded so far, in order. */
    ghost var downloads: seq<string>

    constructor (tempDirectory: string, encode: string -> string)
      ensures this.tempDirectory == tempDirectory && this.encode == encode
      ensures files == map[] && downloads == []
    {
      this.tempDirectory := tempDirectory;
      this.encode := encode;
      this.files := map[];
      this.downloads := [];
    }

    /** `tempDirectory.resolve(encode(url))`: the cache entry of a URL; it
        depends on the URL only. */
    function EntryPath(url: string): string {
      tempDirectory + "/" + encode(url)
    }

    ghost predicate EncoderInjective() {
      forall a: string, b: string :: encode(a) == encode(b) ==> a == b
    }

    /** Two URLs share a cache entry exactly when their encodings agree. */
    lemma EntryPathIff(a: string, b: string)
      ensures EntryPath(a) == EntryPath(b) <==> encode(a) == encode(b)
    {
      var prefix := tempDirectory + "/";
      if EntryPath(a) == EntryPath(b) {
        assert encode(a) == EntryPath(a)[|prefix|..];
        assert encode(b) == EntryPath(b)[|prefix|..];
      }
    }

    /** With an injective encoder, distinct URLs never share a cache entry. */
    lemma EntryPathInjective(a: string, b: string)
      requires EncoderInjective()
      requires a != b
      ensures EntryPath(a) != EntryPath(b)
    {
      EntryPathIff(a, b);
    }

    /** getFile: a local locator is returned as it is and nothing is fetched;
        a remote one is downloaded into its entry only when that entry is
        absent, and its entry is returned. */
    method GetFile(url: string, fetch: string -> seq<bv8>) returns (file: string)
      modifies this
      ensures !IsRemote(url) ==> file == url && files == old(files) && downloads == old(downloads)
      ensures IsRemote(url) ==> file == EntryPath(url) && file in files
      ensures IsRemote(url) && EntryPath(url) in old(files) ==>
        files == old(files) && downloads == old(downloads)
      ensures IsRemote(url) && EntryPath(url) !in old(files) ==>
        files == old(files)[EntryPath(url) := fetch(url)] && downloads == old(downloads) + [url]
    {
      if !IsRemote(url) {
        return url;
      }
      var target := encode(url);
      var path := tempDirectory + "/" + target;
      if path !in files {
        files := files[path := fetch(url)];
        downloads := downloads + [url];
      }
      return path;
    }

    /** Asking twice for one URL gives the same file and downloads at most once. */
    method GetFileTwice(url: string, fetch: string -> seq<bv8>) returns (first: string, second: string)
      modifies this
      ensures first == second
      ensures |downloads| <= |old(downloads)| + 1
      ensures IsRemote(url) ==> first == EntryPath(url) && first in files
    {
      first := GetFile(url, fetch);
      second := GetFile(url, fetch);
    }
  }
}
