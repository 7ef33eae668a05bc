/** The plugin's identifier and its catalog URLs: building the URL of an item
    from its id, and reading the id back out of a catalog URL. */
module Identifiers {
  import opened Wrappers
  import opened Text

  /** The namespace under which the plugin stores its identifiers. */
  const IdType := "bggeek"

  /** The item URL get_book_url builds: https://boardgamegeek.com/boardgame/<id>. */
  const BookHost := "boardgamegeek.com"
  const BookPath := "/boardgame/"
  const BookUrlPrefix := "https://" + BookHost + BookPath

  /** The catalog's three domains, which serve the same items. */
  const Domains: set<string> := {"rpggeek.com", "boardgamegeek.com", "videogamegeek.com"}

  /** get_book_url: (namespace, id, item URL) when the identifiers hold a
      non-empty id in the plugin's namespace, otherwise nothing. */
  function GetBookUrl(identifiers: map<string, string>): (r: Option<(string, string, string)>)
    ensures r.Some? <==> IdType in identifiers && identifiers[IdType] != ""
    ensures r.Some? ==> r.value == (IdType, identifiers[IdType], BookUrlPrefix + identifiers[IdType])
  {
    if IdType in identifiers && identifiers[IdType] != "" then
      var id := identifiers[IdType];
      Some((IdType, id, BookUrlPrefix + id))
    else
      None
  }

  /** path.strip("/").split("/") */
  function PathSegments(path: string): (parts: seq<string>)
    ensures |parts| >= 1
    ensures forall k :: 0 <= k < |parts| ==> '/' !in parts[k]
    ensures Join(parts, "/") == Strip(path, {'/'})
  {
    Split(Strip(path, {'/'}), '/')
  }

  /** id_from_url, given the network location and the path of the URL: the
      id is the second path segment, provided the host is one of the catalog's
      domains and the first segment is "boardgame". */
  function IdFromUrl(netloc: string, path: string): (r: Option<(string, string)>)
    ensures r.Some? ==> netloc in Domains && r.value.0 == IdType && '/' !in r.value.1
  {
    if netloc !in Domains then None
    else
      var parts := PathSegments(path);
      if |parts| < 2 || parts[0] != "boardgame" then None
      else Some((IdType, parts[1]))
  }

  /** A string's first slash-separated segment is "boardgame" and a second
      segment follows exactly when the string starts with "boardgame/". */
  lemma {:induction false} FirstSegmentIsBoardgame(s: string)
    ensures var i := IndexOf(s, '/');
      (i < |s| && s[..i] == "boardgame") <==> (|s| >= 10 && s[..10] == "boardgame/")
  {
    var i := IndexOf(s, '/');
    if |s| >= 10 && s[..10] == "boardgame/" {
      assert forall k :: 0 <= k < 9 ==> s[k] == "boardgame/"[k] && s[k] != '/';
      assert s[9] == '/';
      assert i == 9;
      assert s[..i] == s[..10][..9];
    }
    if i < |s| && s[..i] == "boardgame" {
      assert |s[..i]| == 9;
      assert s[..10] == s[..i] + [s[i]];
    }
  }

  /** The URLs id_from_url accepts are exactly those on a catalog domain whose
      path, slashes around it stripped, starts with "boardgame/"; the id is
      what follows, up to the next slash. */
  lemma IdFromUrlAccepts(netloc: string, path: string)
    ensures var s := Strip(path, {'/'});
      IdFromUrl(netloc, path).Some? <==> netloc in Domains && |s| >= 10 && s[..10] == "boardgame/"
    ensures var s := Strip(path, {'/'});
      IdFromUrl(netloc, path).Some? ==> IdFromUrl(netloc, path).value.1 == s[10..][..IndexOf(s[10..], '/')]
  {
    var s := Strip(path, {'/'});
    var parts := PathSegments(path);
    assert parts == Split(s, '/');
    SegmentsOf(s);
  }

  /** The segments of s: a second one follows a first one "boardgame" exactly
      when s starts with "boardgame/", and it runs to the next slash. */
  lemma SegmentsOf(s: string)
    ensures var parts := Split(s, '/');
      (|parts| >= 2 && parts[0] == "boardgame") <==> (|s| >= 10 && s[..10] == "boardgame/")
    ensures var parts := Split(s, '/');
      |parts| >= 2 && parts[0] == "boardgame" ==> parts[1] == s[10..][..IndexOf(s[10..], '/')]
  {
    SplitHead(s, '/');
    FirstSegmentIsBoardgame(s);
  }

  lemma StripLeadingSlash(x: string)
    requires x != [] && x[0] != '/' && x[|x| - 1] != '/'
    ensures Strip("/" + x, {'/'}) == x
  {
    StripPadded("/", x, "", {'/'});
    assert "/" + x + "" == "/" + x;
  }

  /** The URL get_book_url builds for an id is on a catalog domain, and
      id_from_url reads the same id back from its path. */
  lemma BookUrlRoundTrip(identifiers: map<string, string>)
    requires IdType in identifiers && identifiers[IdType] != ""
    requires '/' !in identifiers[IdType]
    ensures GetBookUrl(identifiers) ==
      Some((IdType, identifiers[IdType], "https://" + BookHost + BookPath + identifiers[IdType]))
    ensures IdFromUrl(BookHost, BookPath + identifiers[IdType]) == Some((IdType, identifiers[IdType]))
  {
    var id := identifiers[IdType];
    IdFromItemPath(BookHost, id, "");
    assert BookPath + id + "" == BookPath + id;
  }

  /** id_from_url reads the id back from the path /boardgame/<id>, and from
      any longer path /boardgame/<id>/..., trailing slashes included, on each
      of the three domains. */
  lemma IdFromItemPath(host: string, id: string, tail: string)
    requires host in Domains
    requires id != [] && '/' !in id
    requires tail == [] || tail[0] == '/'
    ensures IdFromUrl(host, "/boardgame/" + id + tail) == Some((IdType, id))
  {
    var path := "/boardgame/" + id + tail;
    var t := StripItemPath(id, tail);
    IdFromUrlAccepts(host, path);
    FirstSegmentOf(id, t);
  }

  /** Stripping the slashes of /boardgame/<id><tail> removes the leading one
      and the trailing ones of the tail, and leaves the rest of the tail. */
  lemma StripItemPath(id: string, tail: string) returns (t: string)
    requires id != [] && '/' !in id
    requires tail == [] || tail[0] == '/'
    ensures t == [] || t[0] == '/'
    ensures Strip("/boardgame/" + id + tail, {'/'}) == "boardgame/" + id + t
  {
    var trail := StripRightSplits(tail, {'/'});
    t := StripRight(tail, {'/'});
    ItemPathEnds(id, t);
    var x := "boardgame/" + id + t;
    StripPadded("/", x, trail, {'/'});
    assert "/boardgame/" + id + tail == "/" + x + trail by {
      ItemPathSlash(id, tail);
      AppendAssoc("boardgame/" + id, t, trail);
      AppendAssoc("/", x, trail);
    }
  }

  lemma ItemPathEnds(id: string, tail: string)
    requires id != [] && '/' !in id
    requires tail == [] || tail[|tail| - 1] != '/'
    ensures var s := "boardgame/" + id + tail; s[0] != '/' && s[|s| - 1] != '/'
  {
    var s := "boardgame/" + id + tail;
    assert s[0] == 'b';
    if tail == [] { assert s[|s| - 1] == id[|id| - 1]; } else { assert s[|s| - 1] == tail[|tail| - 1]; }
  }

  lemma ItemPathSlash(id: string, tail: string)
    ensures "/" + ("boardgame/" + id + tail) == "/boardgame/" + id + tail
  {
    assert "/boardgame/" == "/" + "boardgame/";
  }

  lemma FirstSegmentOf(id: string, tail: string)
    requires '/' !in id
    requires tail == [] || tail[0] == '/'
    ensures var s := "boardgame/" + id + tail;
      |s| >= 10 && s[..10] == "boardgame/" && s[10..][..IndexOf(s[10..], '/')] == id
  {
    var s := "boardgame/" + id + tail;
    assert s[10..] == id + tail;
    assert IndexOf(id + tail, '/') == |id| by {
      assert forall k :: 0 <= k < |id| ==> (id + tail)[k] == id[k];
      if tail != [] { assert (id + tail)[|id|] == '/'; }
    }
    assert (id + tail)[..|id|] == id;
  }

  lemma BookUrlExamples()
    ensures GetBookUrl(map["bggeek" := "4098"]) ==
      Some(("bggeek", "4098", "https://boardgamegeek.com/boardgame/4098"))
    ensures GetBookUrl(map[]) == None
  {
    assert BookUrlPrefix == "https://boardgamegeek.com/boardgame/";
    assert BookUrlPrefix + "4098" == "https://boardgamegeek.com/boardgame/4098";
  }

  lemma IdFromUrlExample()
    ensures IdFromUrl("boardgamegeek.com", "/boardgame/" + "4098" + "/item-name") == Some((IdType, "4098"))
    ensures IdFromUrl("rpggeek.com", "/boardgame/" + "4098" + "/") == Some((IdType, "4098"))
  {
    IdFromItemPath("boardgamegeek.com", "4098", "/item-name");
    IdFromItemPath("rpggeek.com", "4098", "/");
  }

  lemma IdFromUrlRejectsOtherHost()
    ensures IdFromUrl("example.com", "/boardgame/" + "4098" + "/item-name") == None
  {
  }

  lemma IdFromUrlRejectsOtherPath()
    ensures IdFromUrl("boardgamegeek.com", "/" + "notboardgame/4098") == None
  {
    var t := "notboardgame/4098";
    StripLeadingSlash(t);
    IdFromUrlAccepts("boardgamegeek.com", "/" + t);
    assert t[..10] != "boardgame/" by { assert t[0] != 'b'; }
  }
}
