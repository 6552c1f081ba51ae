// The path builders of the database client (db.py:305-313, 396-398, 756-768).
module DbPaths {
  import opened Text

  const Slash: set<char> := {'/'}

  /**
   * `restapi_path(path)` as written: one leading `/db` is dropped (even when it is only the
   * start of a longer name), a `/` is put in front when missing, and the result is put
   * under `<exist_url>/rest/db`.
   */
  function RestApiPath(existUrl: string, path: string): (r: string)
    ensures exists q :: r == RStrip(existUrl, Slash) + "/rest/db" + q && |q| > 0 && q[0] == '/'
  {
    var p1 := if StartsWith(path, "/db") then path[3..] else path;
    var p2 := if StartsWith(p1, "/") then p1 else "/" + p1;
    assert p2[0] == '/';
    RStrip(existUrl, Slash) + "/rest/db" + p2
  }

  /** A name below the root can be given as `/db/x`, `/x` or `x` alike. */
  lemma RestApiPathForms(existUrl: string, x: string)
    requires |x| > 0 && x[0] != '/' && !StartsWith(x, "db")
    ensures RestApiPath(existUrl, "/db/" + x) == RestApiPath(existUrl, "/" + x)
    ensures RestApiPath(existUrl, x) == RestApiPath(existUrl, "/" + x)
  {
    var a := "/db/" + x;
    assert StartsWith(a, "/db") && a[3..] == "/" + x by {
      assert a[..3] == "/db";
    }
    var b := "/" + x;
    assert !StartsWith(b, "/db") by {
      if |b| >= 3 {
        assert b[1..3] == x[..2];
        assert x[..2] != "db";
      }
    }
    assert StartsWith(b, "/") by {
      assert b[..1] == "/";
    }
    assert !StartsWith(x, "/db") && !StartsWith(x, "/") by {
      assert x[0] != '/';
    }
  }

  /**
   * As written, a collection whose name begins with `db` at the root loses those letters:
   * `/dbx` is sent to the same REST path as `/x`.
   */
  lemma RestApiPathDbPrefixClash(existUrl: string)
    ensures RestApiPath(existUrl, "/dbx") == RestApiPath(existUrl, "/x")
  {
    var a := "/dbx";
    assert StartsWith(a, "/db") && a[3..] == "x" by {
      assert a[..3] == "/db";
    }
    assert !StartsWith("x", "/") by {
      assert "x"[0] != '/';
    }
    var b := "/x";
    assert !StartsWith(b, "/db");
    assert StartsWith(b, "/") by {
      assert b[..1] == "/";
    }
  }

  /** The `/db` root that `restapi_path` means to drop: all of `/db`, or `/db` followed by `/`. */
  predicate DbRooted(path: string)
  {
    path == "/db" || StartsWith(path, "/db/")
  }

  /** `restapi_path` with the `/db` root dropped only when it is a whole path segment. */
  function RestApiPathFixed(existUrl: string, path: string): string
  {
    var p1 := if DbRooted(path) then path[3..] else path;
    var p2 := if StartsWith(p1, "/") then p1 else "/" + p1;
    RStrip(existUrl, Slash) + "/rest/db" + p2
  }

  /** The corrected builder agrees with the written one on every path the written one gets right. */
  lemma RestApiPathFixedAgrees(existUrl: string, path: string)
    requires StartsWith(path, "/db") ==> DbRooted(path)
    ensures RestApiPathFixed(existUrl, path) == RestApiPath(existUrl, path)
  {
    if path == "/db" {
      assert path[..3] == "/db";
    } else if StartsWith(path, "/db/") {
      assert path[..4][..3] == "/db";
    }
  }

  /**
   * With the correction, two absolute paths outside `/db` that reach the same REST path are
   * the same path, and `/db/x` still means `/x`.
   */
  lemma RestApiPathFixedInjective(existUrl: string, p: string, q: string)
    requires StartsWith(p, "/") && StartsWith(q, "/") && !DbRooted(p) && !DbRooted(q)
    requires RestApiPathFixed(existUrl, p) == RestApiPathFixed(existUrl, q)
    ensures p == q
  {
    var base := RStrip(existUrl, Slash) + "/rest/db";
    assert RestApiPathFixed(existUrl, p) == base + p;
    assert RestApiPathFixed(existUrl, q) == base + q;
    assert p == (base + p)[|base|..];
    assert q == (base + q)[|base|..];
  }

  lemma RestApiPathFixedDbRoot(existUrl: string, x: string)
    requires StartsWith(x, "/") && !DbRooted(x)
    ensures RestApiPathFixed(existUrl, "/db" + x) == RestApiPathFixed(existUrl, x)
  {
    var a := "/db" + x;
    assert DbRooted(a) && a[3..] == x by {
      assert a[..4] == "/db/";
    }
  }

  /** `_configCollectionName`: the name without its outer slashes, under the configuration root. */
  function ConfigCollectionName(name: string): (r: string)
    ensures exists t :: r == "/db/system/config/db/" + t && (|t| > 0 ==> t[0] != '/' && t[|t| - 1] != '/')
  {
    var t := Strip(name, Slash);
    assert |t| > 0 ==> t[0] != '/' by {
      var l := LStrip(name, Slash);
      if |t| > 0 {
        assert t[0] == l[0];
      }
    }
    "/db/system/config/db/" + t
  }

  /**
   * `_collectionIndexPath`: the `collection.xconf` file inside the configuration collection,
   * a path under the configuration root whose collection part has no slash at either end.
   */
  function CollectionIndexPath(name: string): (r: string)
    ensures exists t :: r == "/db/system/config/db/" + t + "/collection.xconf" && (|t| > 0 ==> t[0] != '/' && t[|t| - 1] != '/')
  {
    var c := ConfigCollectionName(name);
    var t :| c == "/db/system/config/db/" + t && (|t| > 0 ==> t[0] != '/' && t[|t| - 1] != '/');
    assert c + "/collection.xconf" == "/db/system/config/db/" + t + "/collection.xconf";
    c + "/collection.xconf"
  }

  /** The example of `_collectionIndexPath`. */
  lemma CollectionIndexExample()
    ensures CollectionIndexPath("foo") == "/db/system/config/db/foo/collection.xconf"
  {
    ConfigNamePlain("foo");
  }

  /** `x`, `/x`, `x/` and `/x/` share one index configuration file. */
  lemma CollectionIndexSlashForms(name: string)
    ensures CollectionIndexPath("/" + name) == CollectionIndexPath(name)
    ensures CollectionIndexPath(name + "/") == CollectionIndexPath(name)
    ensures CollectionIndexPath("/" + name + "/") == CollectionIndexPath(name)
  {
    ConfigNameLeadingSlash(name);
    ConfigNameTrailingSlash(name);
    ConfigNameTrailingSlash("/" + name);
  }

  /** A leading slash makes no difference to the configuration collection. */
  lemma ConfigNameLeadingSlash(name: string)
    ensures ConfigCollectionName("/" + name) == ConfigCollectionName(name)
  {
    assert ("/" + name)[1..] == name;
  }

  /** Neither does a trailing slash. */
  lemma ConfigNameTrailingSlash(name: string)
    ensures ConfigCollectionName(name + "/") == ConfigCollectionName(name)
  {
    LStripAppendSlash(name);
    var l := LStrip(name, Slash);
    if |l| > 0 {
      assert (l + "/")[..|l + "/"| - 1] == l;
    }
  }

  /** A trailing slash survives `lstrip('/')` unless nothing else does. */
  lemma {:induction false} LStripAppendSlash(s: string)
    ensures |LStrip(s, Slash)| == 0 ==> LStrip(s + "/", Slash) == ""
    ensures |LStrip(s, Slash)| > 0 ==> LStrip(s + "/", Slash) == LStrip(s, Slash) + "/"
    decreases |s|
  {
    var u := s + "/";
    if |s| == 0 {
      assert u[0] in Slash && u[1..] == "";
      assert LStrip(u, Slash) == LStrip(u[1..], Slash);
    } else if s[0] in Slash {
      assert u[0] == s[0] && u[1..] == s[1..] + "/";
      LStripAppendSlash(s[1..]);
      assert LStrip(u, Slash) == LStrip(s[1..] + "/", Slash);
      assert LStrip(s, Slash) == LStrip(s[1..], Slash);
    } else {
      assert u[0] == s[0];
      assert LStrip(u, Slash) == u && LStrip(s, Slash) == s;
    }
  }

  /** The examples of `_configCollectionName`: a plain name, and the same with slashes around it. */
  lemma ConfigNameExamplePlain()
    ensures ConfigCollectionName("foo") == "/db/system/config/db/foo"
  {
    ConfigNamePlain("foo");
  }

  /** A plain name wrapped in slashes names the same configuration collection. */
  lemma ConfigNameSlashed(name: string)
    requires |name| > 0 ==> name[0] != '/' && name[|name| - 1] != '/'
    ensures ConfigCollectionName("/" + name + "/") == "/db/system/config/db/" + name
  {
    ConfigNamePlain(name);
    ConfigNameLeadingSlash(name);
    ConfigNameTrailingSlash("/" + name);
  }

  /** A name with no slash at either end is used as it is. */
  lemma ConfigNamePlain(name: string)
    requires |name| > 0 ==> name[0] != '/' && name[|name| - 1] != '/'
    ensures ConfigCollectionName(name) == "/db/system/config/db/" + name
  {
  }

  /** The collection name `reindexCollection` passes on: rooted at `/db`. */
  function ReindexName(name: string): string
  {
    if name[..if |name| < 3 then |name| else 3] != "/db" then "/db/" + Strip(name, Slash) else name
  }

  /** The name passed on always starts with `/db`, and passing it through again changes nothing. */
  lemma ReindexNameRooted(name: string)
    ensures StartsWith(ReindexName(name), "/db")
    ensures ReindexName(ReindexName(name)) == ReindexName(name)
  {
    var r := ReindexName(name);
    assert r[..3] == "/db";
  }
}
