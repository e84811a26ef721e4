/** The in-memory database `urlDb` with `createUrl` and `geturl`, and the
    lookup half of the redirect handler. `Put` and `Lookup` state on plain maps
    what the two operations do; the class `UrlDb` holds the map and its methods
    are proved against them. */
module Store {
  import opened Bytes
  import opened Codec

  /** The `URL` record. */
  datatype Url = Url(id: GoString, originalUrl: GoString, shortUrl: GoString, creationDate: GoString)

  /** `errors.New("url not found")`, the only error `geturl` returns. */
  datatype Error = NotFound

  datatype Result<T> = Success(value: T) | Failure(error: Error)

  /** What the redirect handler decides: a 302 whose `location` is the
      argument handed to `http.Redirect` (the stored original URL), or a 404.
      `http.Redirect` itself may still rewrite that argument before sending it:
      a relative one is resolved against the request path and non-ASCII bytes
      are escaped. */
  datatype Response = Found(location: GoString) | StatusNotFound

  /** Every entry sits under its own code, its `id` and `shortUrl` are that code,
      and the code is the one derived from its original URL. */
  ghost predicate WellKeyed(md5: Digester, db: map<GoString, Url>) {
    forall k :: k in db ==>
      db[k].id == k && db[k].shortUrl == k && k == ShortCode(md5, db[k].originalUrl)
  }

  /** The map after `createUrl(url)` at time `now`: one write, under the URL's code. */
  function Put(md5: Digester, db: map<GoString, Url>, url: GoString, now: GoString): (db': map<GoString, Url>)
    ensures db'.Keys == db.Keys + {ShortCode(md5, url)}
    ensures |db'| == if ShortCode(md5, url) in db then |db| else |db| + 1
    ensures var code := ShortCode(md5, url);
      db'[code].id == code && db'[code].shortUrl == code &&
      db'[code].originalUrl == url && db'[code].creationDate == now
    ensures forall k :: k in db && k != ShortCode(md5, url) ==> db'[k] == db[k]
  {
    var code := ShortCode(md5, url);
    db[code := Url(code, url, code, now)]
  }

  /** `geturl(id)`: an exact-key lookup that fails when, and only when, the key is absent. */
  function Lookup(db: map<GoString, Url>, id: GoString): (r: Result<Url>)
    ensures r.Failure? <==> id !in db
    ensures r.Failure? ==> r.error == NotFound
    ensures r.Success? ==> r.value == db[id]
  {
    if id in db then Success(db[id]) else Failure(NotFound)
  }

  lemma PutKeepsWellKeyed(md5: Digester, db: map<GoString, Url>, url: GoString, now: GoString)
    requires WellKeyed(md5, db)
    ensures WellKeyed(md5, Put(md5, db, url, now))
  {
    var code := ShortCode(md5, url);
    var db' := Put(md5, db, url, now);
    forall k | k in db'
      ensures db'[k].id == k && db'[k].shortUrl == k && k == ShortCode(md5, db'[k].originalUrl)
    {
      if k != code {
        assert k in db && db'[k] == db[k];
      }
    }
  }

  /** Only codes are ever keys: a lookup of anything that is not eight
      lower-case hex digits (a trailing slash, upper case, a longer id) fails. */
  lemma OnlyCodesAreFound(md5: Digester, db: map<GoString, Url>, id: GoString)
    requires WellKeyed(md5, db)
    requires !IsShortCode(id)
    ensures Lookup(db, id) == Failure(NotFound)
  {
  }

  /** Creating the same URL twice: the second write lands on the key of the
      first, the key set does not grow, and exactly one entry holds the URL. */
  lemma CreateTwice(md5: Digester, db: map<GoString, Url>, url: GoString, t1: GoString, t2: GoString)
    requires WellKeyed(md5, db)
    ensures var db1 := Put(md5, db, url, t1);
      var db2 := Put(md5, db1, url, t2);
      db2.Keys == db1.Keys &&
      (set k | k in db2 && db2[k].originalUrl == url) == {ShortCode(md5, url)}
  {
    var db1 := Put(md5, db, url, t1);
    var db2 := Put(md5, db1, url, t2);
    PutKeepsWellKeyed(md5, db, url, t1);
    PutKeepsWellKeyed(md5, db1, url, t2);
    HoldersOf(md5, db2, url);
  }

  /** In a well-keyed map no key other than `url`'s code holds `url`, so at
      most one entry holds it (none once a colliding create overwrote it). */
  lemma AtMostOneHolder(md5: Digester, db: map<GoString, Url>, url: GoString)
    requires WellKeyed(md5, db)
    ensures (set k | k in db && db[k].originalUrl == url) <= {ShortCode(md5, url)}
  {
    forall k | k in db && db[k].originalUrl == url ensures k == ShortCode(md5, url) {
      assert k == ShortCode(md5, db[k].originalUrl);
    }
  }

  /** When `url`'s code still holds `url`, that entry is the only one holding it. */
  lemma HoldersOf(md5: Digester, db: map<GoString, Url>, url: GoString)
    requires WellKeyed(md5, db)
    requires ShortCode(md5, url) in db && db[ShortCode(md5, url)].originalUrl == url
    ensures (set k | k in db && db[k].originalUrl == url) == {ShortCode(md5, url)}
  {
    AtMostOneHolder(md5, db, url);
  }

  /** Last write wins. After creating `u1` and then `u2`, `u1`'s code still
      finds `u1`'s record exactly when the two digests differ in their first
      four bytes (or the second call repeated the first one verbatim); on a
      collision it finds `u2`'s record, with no error either time. */
  lemma LastWriteWins(md5: Digester, db: map<GoString, Url>, u1: GoString, t1: GoString, u2: GoString, t2: GoString)
    ensures var c1 := ShortCode(md5, u1);
      var db2 := Put(md5, Put(md5, db, u1, t1), u2, t2);
      && (Lookup(db2, c1) == Success(Url(c1, u1, c1, t1))
          <==> md5(u1)[..4] != md5(u2)[..4] || (u1 == u2 && t1 == t2))
      && (md5(u1)[..4] == md5(u2)[..4] ==> Lookup(db2, c1) == Success(Url(c1, u2, c1, t2)))
  {
    SameCodeIffSameDigestPrefix(md5, u1, u2);
  }

  /** One call of `createUrl`: the URL and the time it was made at. */
  datatype Request = Request(url: GoString, now: GoString)

  /** The map after a sequence of creates, starting from the empty map. */
  function Replay(md5: Digester, reqs: seq<Request>): map<GoString, Url>
  {
    if reqs == [] then map[]
    else
      var last := reqs[|reqs| - 1];
      Put(md5, Replay(md5, reqs[..|reqs| - 1]), last.url, last.now)
  }

  /** A non-empty history is its earlier creates followed by its last one. */
  lemma SplitLast(reqs: seq<Request>)
    requires reqs != []
    ensures reqs == reqs[..|reqs| - 1] + [reqs[|reqs| - 1]]
  {
  }

  /** One more create is one more `Put` on the map the earlier ones left. */
  lemma ReplaySnoc(md5: Digester, init: seq<Request>, last: Request)
    ensures Replay(md5, init + [last]) == Put(md5, Replay(md5, init), last.url, last.now)
  {
    assert (init + [last])[..|init|] == init;
  }

  /** The codes of the URLs created so far. */
  function CreatedCodes(md5: Digester, reqs: seq<Request>): set<GoString>
  {
    set i | 0 <= i < |reqs| :: ShortCode(md5, reqs[i].url)
  }

  /** Appending a create adds its code to the created codes. */
  lemma CreatedCodesSnoc(md5: Digester, reqs: seq<Request>)
    requires reqs != []
    ensures CreatedCodes(md5, reqs) ==
      CreatedCodes(md5, reqs[..|reqs| - 1]) + {ShortCode(md5, reqs[|reqs| - 1].url)}
  {
    var init := reqs[..|reqs| - 1];
    forall c | c in CreatedCodes(md5, reqs)
      ensures c in CreatedCodes(md5, init) + {ShortCode(md5, reqs[|reqs| - 1].url)}
    {
      var i :| 0 <= i < |reqs| && c == ShortCode(md5, reqs[i].url);
      if i < |reqs| - 1 {
        assert reqs[i] == init[i];
      }
    }
    forall c | c in CreatedCodes(md5, init) ensures c in CreatedCodes(md5, reqs) {
      var i :| 0 <= i < |init| && c == ShortCode(md5, init[i].url);
      assert init[i] == reqs[i];
    }
  }

  /** The keys of the map are exactly the codes of the URLs created: nothing
      else is ever stored, and nothing is ever removed. */
  lemma {:induction false} ReplayKeys(md5: Digester, reqs: seq<Request>)
    ensures Replay(md5, reqs).Keys == CreatedCodes(md5, reqs)
  {
    if reqs != [] {
      var init, last := reqs[..|reqs| - 1], reqs[|reqs| - 1];
      SplitLast(reqs);
      ReplaySnoc(md5, init, last);
      ReplayKeys(md5, init);
      CreatedCodesSnoc(md5, reqs);
    }
  }

  lemma {:induction false} ReplayWellKeyed(md5: Digester, reqs: seq<Request>)
    ensures WellKeyed(md5, Replay(md5, reqs))
  {
    if reqs != [] {
      var init, last := reqs[..|reqs| - 1], reqs[|reqs| - 1];
      SplitLast(reqs);
      ReplaySnoc(md5, init, last);
      ReplayWellKeyed(md5, init);
      PutKeepsWellKeyed(md5, Replay(md5, init), last.url, last.now);
    }
  }

  /** A lookup of an id that no create produced fails with `NotFound`. */
  lemma NeverCreatedNotFound(md5: Digester, reqs: seq<Request>, id: GoString)
    requires forall i :: 0 <= i < |reqs| ==> ShortCode(md5, reqs[i].url) != id
    ensures Lookup(Replay(md5, reqs), id) == Failure(NotFound)
  {
    ReplayKeys(md5, reqs);
  }

  /** Create `i` wrote the record now stored under `id`, and no later create
      produced that code. */
  ghost predicate LatestWriter(md5: Digester, reqs: seq<Request>, id: GoString, i: int)
    requires id in Replay(md5, reqs)
  {
    && 0 <= i < |reqs|
    && ShortCode(md5, reqs[i].url) == id
    && Replay(md5, reqs)[id] == Url(id, reqs[i].url, id, reqs[i].now)
    && forall j :: i < j < |reqs| ==> ShortCode(md5, reqs[j].url) != id
  }

  /** A create with another code leaves the latest writer of `id` as it was. */
  lemma LatestWriterSnoc(md5: Digester, init: seq<Request>, last: Request, id: GoString, i: int)
    requires ShortCode(md5, last.url) != id
    requires id in Replay(md5, init)
    requires LatestWriter(md5, init, id, i)
    ensures id in Replay(md5, init + [last]) && LatestWriter(md5, init + [last], id, i)
  {
    var reqs := init + [last];
    ReplaySnoc(md5, init, last);
    assert Replay(md5, reqs)[id] == Replay(md5, init)[id];
    forall j | i < j < |reqs| ensures ShortCode(md5, reqs[j].url) != id {
      if j < |init| {
        assert reqs[j] == init[j];
      }
    }
  }

  /** The last create is the latest writer of its own code. */
  lemma LastIsLatestWriter(md5: Digester, init: seq<Request>, last: Request)
    ensures ShortCode(md5, last.url) in Replay(md5, init + [last])
    ensures LatestWriter(md5, init + [last], ShortCode(md5, last.url), |init|)
  {
    ReplaySnoc(md5, init, last);
  }

  /** Every record found was written by the latest create whose URL has that
      code, create `i`: it holds that create's URL and timestamp. */
  lemma {:induction false} FoundIsLatestCreate(md5: Digester, reqs: seq<Request>, id: GoString)
    returns (i: int)
    requires id in Replay(md5, reqs)
    ensures LatestWriter(md5, reqs, id, i)
  {
    var init, last := reqs[..|reqs| - 1], reqs[|reqs| - 1];
    SplitLast(reqs);
    if ShortCode(md5, last.url) == id {
      LastIsLatestWriter(md5, init, last);
      i := |init|;
    } else {
      ReplaySnoc(md5, init, last);
      i := FoundIsLatestCreate(md5, init, id);
      LatestWriterSnoc(md5, init, last, id, i);
    }
  }

  /** The route "/redirect/" and the slice `[len("/redirect/"):]`. */
  const RedirectPrefix: GoString := Ascii("/redirect/")

  /** The id the redirect handler looks up: the path after the prefix, untouched. */
  function RedirectId(path: GoString): (id: GoString)
    requires RedirectPrefix <= path
    ensures RedirectPrefix + id == path
    ensures |id| == |path| - 10
  {
    path[|RedirectPrefix|..]
  }

  /** Creating a URL and then following "/redirect/<code>" leads back to that URL. */
  lemma RedirectAfterCreate(md5: Digester, db: map<GoString, Url>, url: GoString, now: GoString)
    ensures var db' := Put(md5, db, url, now);
      var path := RedirectPrefix + ShortCode(md5, url);
      RedirectPrefix <= path && Lookup(db', RedirectId(path)).Success? &&
      Lookup(db', RedirectId(path)).value.originalUrl == url
  {
    var path := RedirectPrefix + ShortCode(md5, url);
    assert RedirectPrefix <= path;
    assert RedirectId(path) == ShortCode(md5, url);
  }

  /** The global `urlDb`, with the hash function the process uses. `Created`
      records every call of `createUrl` so far, in order. */
  class UrlDb {
    const md5: Digester
    var urlDb: map<GoString, Url>
    ghost var Created: seq<Request>

    /** The map is exactly what the creates so far have written. */
    ghost predicate Valid()
      reads this
    {
      urlDb == Replay(md5, Created)
    }

    /** `make(map[string]URL)`: the database starts empty. */
    constructor (md5: Digester)
      ensures this.md5 == md5 && urlDb == map[] && Created == []
      ensures Valid()
    {
      this.md5 := md5;
      urlDb := map[];
      Created := [];
    }

    /** `createUrl`: derive the code, overwrite whatever was stored under it, return the code. */
    method CreateUrl(url: GoString, now: GoString) returns (shortUrl: GoString)
      requires Valid()
      modifies this
      ensures Valid() && WellKeyed(md5, urlDb)
      ensures Created == old(Created) + [Request(url, now)]
      ensures shortUrl == ShortCode(md5, url) && IsShortCode(shortUrl)
      ensures urlDb == Put(md5, old(urlDb), url, now)
    {
      shortUrl := ShortCode(md5, url);
      urlDb := urlDb[shortUrl := Url(shortUrl, url, shortUrl, now)];
      ReplaySnoc(md5, Created, Request(url, now));
      Created := Created + [Request(url, now)];
      ReplayWellKeyed(md5, Created);
    }

    /** `geturl`: reads the map and changes nothing. An id that no create
        produced is not found. */
    method GetUrl(id: GoString) returns (r: Result<Url>)
      requires Valid()
      ensures r == Lookup(urlDb, id)
      ensures (forall i :: 0 <= i < |Created| ==> ShortCode(md5, Created[i].url) != id) ==>
        r == Failure(NotFound)
    {
      r := Lookup(urlDb, id);
      if forall i :: 0 <= i < |Created| ==> ShortCode(md5, Created[i].url) != id {
        NeverCreatedNotFound(md5, Created, id);
      }
    }

    /** The decision in `redirect`: strip the prefix, look the id up, and
        answer 302 with the stored URL as the argument to `http.Redirect`, or 404. */
    method Redirect(path: GoString) returns (resp: Response)
      requires Valid()
      requires RedirectPrefix <= path
      ensures resp.Found? <==> RedirectId(path) in urlDb
      ensures resp.Found? ==> resp.location == urlDb[RedirectId(path)].originalUrl
    {
      var id := RedirectId(path);
      var url := GetUrl(id);
      if url.Failure? {
        return StatusNotFound;
      }
      resp := Found(url.value.originalUrl);
    }
  }
}
