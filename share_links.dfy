/** The resume share-link store of the backend: a process-wide map from short id
    to click-tracking record, loaded once from a JSON file and rewritten in full
    after every change. The file is an abstract `Disk` value, the JSON codec is
    the identity on maps, the clock and the id generator are parameters, and the
    outcome of each file write is a parameter as well. */
module ShareLinks {
  import opened Js

  /** An ISO-8601 time stamp as produced by `new Date().toISOString()`; opaque here. */
  type Timestamp = string

  /** One issued link. `clicks` counts resolutions; `lastAccessed` is absent until the first. */
  datatype Record = Record(createdAt: Timestamp, clicks: nat, referrer: string, lastAccessed: Option<Timestamp>)

  type Links = map<string, Record>

  /** What the backing file currently holds: nothing, bytes that do not parse as
      the JSON object, or a parsed map of links. */
  datatype Disk = Missing | Unparseable | Stored(links: Links)

  /** What one `writeFileSync` call did: wrote the whole map, or threw. A write
      that throws before the file is opened (a missing directory, no permission)
      leaves it as it was; one that throws part-way leaves a strict prefix of the
      pretty-printed object, which does not parse (`truncated`). One that throws
      only when closing the file, after every byte was written, is `CloseFailed`:
      the error is logged as a failure, yet the file holds the whole map. */
  datatype WriteOutcome = WriteOk | WriteFailed(truncated: bool) | CloseFailed

  /** Every byte of the map reached the file, whether or not the call threw. */
  predicate Written(w: WriteOutcome) {
    w.WriteOk? || w.CloseFailed?
  }

  /** The parts of an incoming request the handlers read. */
  datatype Request = Request(protocol: string, host: string, referer: Option<string>)

  /** What the two handlers send back. */
  datatype Response =
    | ShareCreated(shareUrl: string, shortId: string)   // 200 {success: true, shareUrl, shortId}
    | Redirect(status: nat, location: string)

  const SharePath := "/api/resume/share/"
  const ResumeAnchor := "/#resume"

  /** `loadShareLinks`: the parsed map when the file exists and parses, the empty
      map otherwise (the error is only logged). */
  function LoadLinks(d: Disk): Links {
    match d
    case Stored(m) => m
    case _ => map[]
  }

  /** The file after `saveShareLinks(links)` with the given write outcome. */
  function AfterSave(d: Disk, links: Links, w: WriteOutcome): (after: Disk)
    ensures Written(w) ==> LoadLinks(after) == links
    ensures w.WriteFailed? ==> LoadLinks(after) == LoadLinks(d) || LoadLinks(after) == map[]
  {
    match w
    case WriteOk => Stored(links)
    case CloseFailed => Stored(links)
    case WriteFailed(truncated) => if truncated then Unparseable else d
  }

  /** `process.env.BASE_URL || \`${req.protocol}://${req.get('host')}\``. */
  function BaseUrl(envBaseUrl: Option<string>, req: Request): (url: string)
    ensures Truthy(envBaseUrl) ==> url == envBaseUrl.value
    ensures !Truthy(envBaseUrl) ==> url == req.protocol + "://" + req.host
  {
    OrElse(envBaseUrl, req.protocol + "://" + req.host)
  }

  function ShareUrl(baseUrl: string, shortId: string): (url: string)
    ensures |url| == |baseUrl| + |SharePath| + |shortId|
    ensures url[..|baseUrl|] == baseUrl && url[|baseUrl|..|baseUrl| + |SharePath|] == SharePath
    ensures url[|baseUrl| + |SharePath|..] == shortId
  {
    baseUrl + SharePath + shortId
  }

  /** The record `generateShareLink` stores for a new id. */
  function NewRecord(now: Timestamp, referer: Option<string>): (r: Record)
    ensures r.clicks == 0 && r.lastAccessed.None? && r.createdAt == now
    ensures r.referrer == (if Truthy(referer) then referer.value else "direct")
  {
    Record(now, 0, OrElse(referer, "direct"), None)
  }

  /** The map after `generateShareLink` stored `rec` under `id`. */
  function Issue(links: Links, id: string, rec: Record): (r: Links)
    ensures r.Keys == links.Keys + {id} && r[id] == rec
    ensures forall k :: k in links && k != id ==> r[k] == links[k]
  {
    links[id := rec]
  }

  /** The map after `getSharedResume` resolved `id` at time `now`. */
  function Touch(links: Links, id: string, now: Timestamp): (r: Links)
    ensures r.Keys == links.Keys
    ensures forall k :: k in links && k != id ==> r[k] == links[k]
  {
    if id in links then
      links[id := links[id].(clicks := links[id].clicks + 1, lastAccessed := Some(now))]
    else links
  }

  /** The map after resolving `id` once per time stamp in `times`, in order. */
  function TouchAll(links: Links, id: string, times: seq<Timestamp>): Links
    decreases |times|
  {
    if times == [] then links else TouchAll(Touch(links, id, times[0]), id, times[1..])
  }

  /** No record disappears and no counter goes down. */
  ghost predicate Grows(before: Links, after: Links) {
    before.Keys <= after.Keys &&
    forall id :: id in before ==> before[id].clicks <= after[id].clicks
  }

  class ShareLinkStore {
    /** The in-memory `shareLinks` object. */
    var links: Links
    /** The backing `share-links.json`. */
    var disk: Disk
    /** Every map handed to `saveShareLinks`, oldest first. */
    ghost var saves: seq<Links>

    /** Module start-up: `let shareLinks = loadShareLinks()`. */
    constructor Load(d: Disk)
      ensures links == LoadLinks(d) && disk == d && saves == []
    {
      links := LoadLinks(d);
      disk := d;
      saves := [];
    }

    /** `saveShareLinks(shareLinks)`: the whole map is written; a failure is only
        logged, and the in-memory map stands either way. */
    method Save(w: WriteOutcome)
      modifies this
      ensures links == old(links)
      ensures disk == AfterSave(old(disk), links, w)
      ensures saves == old(saves) + [links]
    {
      disk := AfterSave(disk, links, w);
      saves := saves + [links];
    }

    /** `generateShareLink`: `shortId` is what `nanoid(10)` returned and `now` what
        the clock read. The record is stored under the id (overwriting any record
        that id already had), the map is saved, and the share URL is returned. */
    method GenerateShareLink(req: Request, envBaseUrl: Option<string>, shortId: string, now: Timestamp, w: WriteOutcome)
      returns (resp: Response)
      modifies this
      ensures links == Issue(old(links), shortId, NewRecord(now, req.referer))
      ensures shortId !in old(links) ==> Grows(old(links), links) && |links| == |old(links)| + 1
      ensures disk == AfterSave(old(disk), links, w)
      ensures saves == old(saves) + [links]
      ensures resp == ShareCreated(ShareUrl(BaseUrl(envBaseUrl, req), shortId), shortId)
    {
      var baseUrl := BaseUrl(envBaseUrl, req);
      links := links[shortId := NewRecord(now, req.referer)];
      Save(w);
      resp := ShareCreated(baseUrl + SharePath + shortId, shortId);
      if shortId !in old(links) {
        IssueFresh(old(links), shortId, NewRecord(now, req.referer));
      }
    }

    /** `getSharedResume`: a known id gets one more click and a fresh
        `lastAccessed`, and the map is saved; an unknown id changes nothing and
        writes nothing. Either way the visitor is redirected (302) to the resume
        section of the site. */
    method GetSharedResume(req: Request, envBaseUrl: Option<string>, id: string, now: Timestamp, w: WriteOutcome)
      returns (resp: Response)
      modifies this
      ensures links == Touch(old(links), id, now)
      ensures Grows(old(links), links)
      ensures id in old(links) ==> disk == AfterSave(old(disk), links, w) && saves == old(saves) + [links]
      ensures id !in old(links) ==> disk == old(disk) && saves == old(saves)
      ensures resp == Redirect(302, BaseUrl(envBaseUrl, req) + ResumeAnchor)
    {
      var baseUrl := BaseUrl(envBaseUrl, req);
      if id in links {
        var rec := links[id];
        links := links[id := rec.(clicks := rec.clicks + 1)];
        links := links[id := links[id].(lastAccessed := Some(now))];
        Save(w);
      }
      resp := Redirect(302, baseUrl + ResumeAnchor);
    }
  }

  /** Issuing under a fresh id adds exactly that key; every other entry is untouched
      and no counter goes down. */
  lemma IssueFresh(links: Links, id: string, rec: Record)
    requires id !in links
    ensures Issue(links, id, rec).Keys == links.Keys + {id}
    ensures |Issue(links, id, rec)| == |links| + 1
    ensures forall k :: k in links ==> Issue(links, id, rec)[k] == links[k]
    ensures Grows(links, Issue(links, id, rec))
  {
    assert Issue(links, id, rec).Keys == links.Keys + {id};
  }

  /** Issuing under an id already present silently replaces its record: the size is
      unchanged and that record's clicks restart from the new record's. */
  lemma IssueReused(links: Links, id: string, now: Timestamp, referer: Option<string>)
    requires id in links
    ensures |Issue(links, id, NewRecord(now, referer))| == |links|
    ensures Issue(links, id, NewRecord(now, referer))[id].clicks == 0
  {
    assert Issue(links, id, NewRecord(now, referer)).Keys == links.Keys;
  }

  /** Resolving a known id adds exactly one click to it, stamps `lastAccessed`,
      keeps its `createdAt` and `referrer`, and leaves every other entry alone. */
  lemma TouchKnown(links: Links, id: string, now: Timestamp)
    requires id in links
    ensures Touch(links, id, now).Keys == links.Keys
    ensures Touch(links, id, now)[id].clicks == links[id].clicks + 1
    ensures Touch(links, id, now)[id].lastAccessed == Some(now)
    ensures Touch(links, id, now)[id].createdAt == links[id].createdAt
    ensures Touch(links, id, now)[id].referrer == links[id].referrer
    ensures forall k :: k in links && k != id ==> Touch(links, id, now)[k] == links[k]
  {
  }

  /** Resolving an unknown id changes nothing. */
  lemma TouchUnknown(links: Links, id: string, now: Timestamp)
    requires id !in links
    ensures Touch(links, id, now) == links
  {
  }

  /** Resolving never removes a record and never lowers a counter. */
  lemma TouchGrows(links: Links, id: string, now: Timestamp)
    ensures Grows(links, Touch(links, id, now))
  {
  }

  /** k resolutions of a known id add exactly k clicks, keep its creation data,
      leave `lastAccessed` at the last time stamp, and touch no other entry. */
  lemma {:induction false} TouchAllCounts(links: Links, id: string, times: seq<Timestamp>)
    requires id in links
    ensures id in TouchAll(links, id, times)
    ensures TouchAll(links, id, times).Keys == links.Keys
    ensures TouchAll(links, id, times)[id].clicks == links[id].clicks + |times|
    ensures TouchAll(links, id, times)[id].createdAt == links[id].createdAt
    ensures TouchAll(links, id, times)[id].referrer == links[id].referrer
    ensures times != [] ==> TouchAll(links, id, times)[id].lastAccessed == Some(times[|times| - 1])
    ensures forall k :: k in links && k != id ==> TouchAll(links, id, times)[k] == links[k]
    decreases |times|
  {
    if times != [] {
      var next := Touch(links, id, times[0]);
      TouchKnown(links, id, times[0]);
      TouchAllCounts(next, id, times[1..]);
      if |times| > 1 {
        assert times[1..][|times[1..]| - 1] == times[|times| - 1];
      }
    }
  }

  /** Resolutions of an unknown id, however many, leave the map as it was. */
  lemma {:induction false} TouchAllUnknown(links: Links, id: string, times: seq<Timestamp>)
    requires id !in links
    ensures TouchAll(links, id, times) == links
    decreases |times|
  {
    if times != [] {
      TouchUnknown(links, id, times[0]);
      TouchAllUnknown(links, id, times[1..]);
    }
  }

  /** A successful save followed by a restart loads back exactly the saved map. */
  lemma SaveLoadRoundTrip(d: Disk, links: Links)
    ensures LoadLinks(AfterSave(d, links, WriteOk)) == links
  {
  }

  /** The file after a series of saves of `maps`, with write outcomes `ws`. */
  function SaveAll(d: Disk, maps: seq<Links>, ws: seq<WriteOutcome>): Disk
    requires |maps| == |ws|
    decreases |maps|
  {
    if maps == [] then d else SaveAll(AfterSave(d, maps[0], ws[0]), maps[1..], ws[1..])
  }

  /** A restart after any series of saves, successful or not, loads the map of
      the last successful save, or the map the process started from, or the empty
      map; never a map that was not written in full. When the last save succeeded
      it loads exactly that map. */
  lemma {:induction false} RestartAfterSaves(d: Disk, maps: seq<Links>, ws: seq<WriteOutcome>)
    requires |maps| == |ws|
    ensures var loaded := LoadLinks(SaveAll(d, maps, ws));
      loaded == map[] || loaded == LoadLinks(d) ||
      exists i :: 0 <= i < |maps| && Written(ws[i]) && loaded == maps[i]
    ensures maps != [] && Written(ws[|ws| - 1]) ==> LoadLinks(SaveAll(d, maps, ws)) == maps[|maps| - 1]
    decreases |maps|
  {
    if maps != [] {
      var d' := AfterSave(d, maps[0], ws[0]);
      RestartAfterSaves(d', maps[1..], ws[1..]);
      var loaded := LoadLinks(SaveAll(d, maps, ws));
      if loaded != map[] && loaded != LoadLinks(d) && loaded == LoadLinks(d') {
        assert Written(ws[0]) && loaded == maps[0];
      }
      if exists i :: 0 <= i < |maps[1..]| && Written(ws[1..][i]) && loaded == maps[1..][i] {
        var i :| 0 <= i < |maps[1..]| && Written(ws[1..][i]) && loaded == maps[1..][i];
        assert Written(ws[i + 1]) && loaded == maps[i + 1];
      }
      if |maps| > 1 {
        assert ws[1..][|ws[1..]| - 1] == ws[|ws| - 1];
        assert maps[1..][|maps[1..]| - 1] == maps[|maps| - 1];
      }
    }
  }

  /** The share URL ends in the short id, so the `/api/resume/share/:id` route
      receives back exactly the id that was issued. */
  lemma ShareUrlCarriesId(baseUrl: string, shortId: string)
    ensures var url := ShareUrl(baseUrl, shortId);
      |url| >= |SharePath| + |shortId| && url[|url| - |shortId|..] == shortId
  {
  }

  /** Issue, persist, restart: the new process sees the record with `clicks = 0`,
      no `lastAccessed`, and the original `createdAt` and referrer. */
  lemma CreateRestartScenario(d: Disk, links: Links, id: string, now: Timestamp, referer: Option<string>)
    ensures var after := LoadLinks(AfterSave(d, Issue(links, id, NewRecord(now, referer)), WriteOk));
      id in after && after[id].clicks == 0 && after[id].lastAccessed.None? &&
      after[id].createdAt == now && after[id].referrer == OrElse(referer, "direct")
  {
  }

  /** The end-to-end scenario: create, resolve, resolve an unknown id, resolve
      again; the link ends with two clicks and the last access time. */
  lemma ResolveScenario(links: Links, id: string, other: string, t0: Timestamp, t1: Timestamp, t2: Timestamp, t3: Timestamp)
    requires other != id && other !in links
    ensures var m0 := Issue(links, id, NewRecord(t0, None));
      var m3 := Touch(Touch(Touch(m0, id, t1), other, t2), id, t3);
      id in m3 && m3[id].clicks == 2 && m3[id].lastAccessed == Some(t3) && m3[id].referrer == "direct"
      && other !in m3
  {
    var m0 := Issue(links, id, NewRecord(t0, None));
    var m1 := Touch(m0, id, t1);
    assert other !in m1;
    TouchUnknown(m1, other, t2);
  }
}
