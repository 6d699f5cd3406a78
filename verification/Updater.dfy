/** The update check and its cached result, over any sequence of responses. */
module Updater {
  import opened Basics
  import opened Versions

  datatype Asset = Asset(name: string, url: string, size: int, digest: string)
  datatype Release = Release(tag: string, name: string, body: string, assets: seq<Asset>)

  datatype UpdateInfo = UpdateInfo(
    available: bool, version: string, releaseName: string, body: string, url: string, size: int, sha256: string)

  const NO_UPDATE := UpdateInfo(false, "", "", "", "", 0, "")

  /** What the request to the releases API yields. */
  datatype Response = NetworkError | Status(code: int) | BadJson | Fetched(rel: Release)

  function Lower(c: char): char {
    if 'A' <= c <= 'Z' then (c as int + 32) as char else c
  }

  function LowerAll(s: string): (r: string)
    ensures |r| == |s|
  {
    seq(|s|, i requires 0 <= i < |s| => Lower(s[i]))
  }

  predicate HasSuffix(s: string, suffix: string) {
    |suffix| <= |s| && s[|s| - |suffix|..] == suffix
  }

  predicate IsExe(a: Asset) {
    HasSuffix(LowerAll(a.name), ".exe")
  }

  /** The name ends in ".exe", in upper or lower case. */
  predicate NamesExe(a: Asset) {
    var n := |a.name|;
    && n >= 4 && a.name[n - 4] == '.'
    && (a.name[n - 3] == 'e' || a.name[n - 3] == 'E')
    && (a.name[n - 2] == 'x' || a.name[n - 2] == 'X')
    && (a.name[n - 1] == 'e' || a.name[n - 1] == 'E')
  }

  lemma ExeByName(a: Asset)
    ensures IsExe(a) <==> NamesExe(a)
  {
    var low := LowerAll(a.name);
    var n := |a.name|;
    if n >= 4 {
      assert low[n - 4..] == [low[n - 4], low[n - 3], low[n - 2], low[n - 1]];
      assert ".exe" == ['.', 'e', 'x', 'e'];
    }
  }

  const SHA_PREFIX := "sha256:"

  function ShaOf(digest: string): string {
    if SHA_PREFIX <= digest then digest[|SHA_PREFIX|..] else ""
  }

  function InfoOf(rel: Release, a: Asset): UpdateInfo {
    UpdateInfo(true, TrimV(rel.tag), rel.name, rel.body, a.url, a.size, ShaOf(a.digest))
  }

  /** The index is that of the first asset with the suffix. */
  ghost predicate FirstExeAt(assets: seq<Asset>, i: nat) {
    i < |assets| && NamesExe(assets[i]) && forall j :: 0 <= j < i ==> !NamesExe(assets[j])
  }

  ghost predicate HasExe(assets: seq<Asset>) {
    exists i :: 0 <= i < |assets| && NamesExe(assets[i])
  }

  function FirstExe(assets: seq<Asset>): (r: Option<Asset>)
    ensures r.Some? <==> HasExe(assets)
    ensures r.Some? ==> exists i: nat :: FirstExeAt(assets, i) && assets[i] == r.value
  {
    if assets == [] then None
    else if NamesExe(assets[0]) then
      assert FirstExeAt(assets, 0);
      Some(assets[0])
    else
      var r := FirstExe(assets[1..]);
      assert r.Some? ==> exists i: nat :: FirstExeAt(assets, i) && assets[i] == r.value by {
        if r.Some? {
          var i: nat :| FirstExeAt(assets[1..], i) && assets[1..][i] == r.value;
          assert forall j :: 1 <= j <= i ==> assets[j] == assets[1..][j - 1];
          assert FirstExeAt(assets, i + 1) && assets[i + 1] == r.value;
        }
      }
      assert HasExe(assets) ==> HasExe(assets[1..]) by {
        if HasExe(assets) {
          var i :| 0 <= i < |assets| && NamesExe(assets[i]);
          assert assets[1..][i - 1] == assets[i];
        }
      }
      r
  }

  /** The cached result after a response, and what Check returns. */
  function Checked(current: string, cached: UpdateInfo, r: Response): (UpdateInfo, Result<UpdateInfo, string>) {
    match r
    case NetworkError => (cached, Err("fetching release info"))
    case Status(code) =>
      if code == 404 then (cached, Ok(NO_UPDATE))
      else if code == 403 then (cached, Ok(cached))
      else (cached, Err("unexpected status"))
    case BadJson => (cached, Err("decoding release JSON"))
    case Fetched(rel) => FetchedResult(cached, rel, Newer(TrimV(rel.tag), current))
  }

  /** What becomes of a release that was fetched, given whether it is newer. */
  function FetchedResult(cached: UpdateInfo, rel: Release, newer: bool): (UpdateInfo, Result<UpdateInfo, string>) {
    if !newer then (NO_UPDATE, Ok(NO_UPDATE))
    else
      var a := FirstExe(rel.assets);
      if a.None? then (cached, Err("no .exe asset found"))
      else (InfoOf(rel, a.value), Ok(InfoOf(rel, a.value)))
  }

  class UpdateChecker {
    const currentVersion: string
    var cached: UpdateInfo

    constructor (currentVersion: string)
      ensures this.currentVersion == currentVersion && cached == NO_UPDATE
    {
      this.currentVersion, cached := currentVersion, NO_UPDATE;
    }

    method Check(response: Response) returns (r: Result<UpdateInfo, string>)
      modifies this
      ensures (cached, r) == Checked(currentVersion, old(cached), response)
    {
      match response {
        case NetworkError => return Err("fetching release info");
        case Status(code) =>
          if code == 404 {
            return Ok(NO_UPDATE);
          }
          if code == 403 {
            return Ok(cached);
          }
          return Err("unexpected status");
        case BadJson => return Err("decoding release JSON");
        case Fetched(rel) =>
          var newer := IsNewer(TrimV(rel.tag), currentVersion);
          if !newer {
            cached := NO_UPDATE;
            return Ok(NO_UPDATE);
          }
          var asset := FindExe(rel.assets);
          if asset.None? {
            return Err("no .exe asset found");
          }
          cached := InfoOf(rel, asset.value);
          return Ok(cached);
      }
    }
  }

  method FindExe(assets: seq<Asset>) returns (asset: Option<Asset>)
    ensures asset == FirstExe(assets)
  {
    for i := 0 to |assets|
      invariant FirstExe(assets) == FirstExe(assets[i..])
    {
      assert assets[i..][1..] == assets[i + 1..];
      ExeByName(assets[i]);
      if IsExe(assets[i]) {
        return Some(assets[i]);
      }
    }
    return None;
  }

  // ---- any sequence of checks

  function CachedAfter(current: string, rs: seq<Response>): UpdateInfo {
    if rs == [] then NO_UPDATE else Checked(current, CachedAfter(current, rs[..|rs| - 1]), rs[|rs| - 1]).0
  }

  /** A response that settles the question: a release that is not newer, or one with a binary. */
  ghost predicate Settles(current: string, r: Response) {
    r.Fetched? && (!Newer(TrimV(r.rel.tag), current) || HasExe(r.rel.assets))
  }

  /** The tag is the version, possibly with one "v" before it. */
  predicate Tags(tag: string, version: string) {
    if tag != "" && tag[0] == 'v' then tag == "v" + version else tag == version
  }

  /** A digest is passed on without its algorithm's name, and only if that is SHA-256. */
  predicate Digests(digest: string, sha256: string) {
    if SHA_PREFIX <= digest then digest == "sha256:" + sha256 else sha256 == ""
  }

  /** The result names this asset of this release. */
  predicate Names(info: UpdateInfo, rel: Release, a: Asset) {
    && info.available && Tags(rel.tag, info.version)
    && info.releaseName == rel.name && info.body == rel.body
    && info.url == a.url && info.size == a.size && Digests(a.digest, info.sha256)
  }

  lemma InfoNames(rel: Release, a: Asset)
    ensures Names(InfoOf(rel, a), rel, a)
  {
    assert SHA_PREFIX <= a.digest ==> a.digest == SHA_PREFIX + a.digest[|SHA_PREFIX|..];
  }

  /** The cached result describes the first binary of a newer release. */
  ghost predicate Describes(current: string, info: UpdateInfo, r: Response) {
    && r.Fetched? && Newer(info.version, current)
    && exists i: nat :: FirstExeAt(r.rel.assets, i) && Names(info, r.rel, r.rel.assets[i])
  }

  /** The last settling response of a sequence is at `j`. */
  ghost predicate LastSettled(current: string, rs: seq<Response>, j: nat) {
    j < |rs| && Settles(current, rs[j]) && forall k :: j < k < |rs| ==> !Settles(current, rs[k])
  }

  ghost predicate DecidedBy(current: string, cached: UpdateInfo, r: Response)
    requires r.Fetched?
  {
    if Newer(TrimV(r.rel.tag), current) then Describes(current, cached, r) else cached == NO_UPDATE
  }

  /** The cached result after a newer release that has a binary names the first one. */
  lemma FoundIsNamed(cached: UpdateInfo, rel: Release)
    ensures HasExe(rel.assets) ==>
              var info := FetchedResult(cached, rel, true).0;
              info.version == TrimV(rel.tag)
              && exists i: nat :: FirstExeAt(rel.assets, i) && Names(info, rel, rel.assets[i])
    ensures !HasExe(rel.assets) ==> FetchedResult(cached, rel, true).0 == cached
  {
    if HasExe(rel.assets) {
      var a := FirstExe(rel.assets).value;
      var i: nat :| FirstExeAt(rel.assets, i) && rel.assets[i] == a;
      InfoNames(rel, a);
      assert Names(InfoOf(rel, a), rel, rel.assets[i]);
    }
  }

  /** A settling response decides the cache, any other leaves it alone. */
  lemma CheckDecides(current: string, cached: UpdateInfo, r: Response)
    ensures Settles(current, r) ==> DecidedBy(current, Checked(current, cached, r).0, r)
    ensures !Settles(current, r) ==> Checked(current, cached, r).0 == cached
  {
    if r.Fetched? {
      FoundIsNamed(cached, r.rel);
    }
  }

  /**
   * What a check answers: an error if there was no usable answer or a newer release without a
   * binary, the cached result when the rate is limited, no update if there is none, and else the
   * new result.
   */
  lemma CheckAnswers(current: string, cached: UpdateInfo, r: Response)
    ensures var answer := Checked(current, cached, r).1;
            && (answer.Err? <==>
                  || r.NetworkError? || r.BadJson?
                  || (r.Status? && r.code != 404 && r.code != 403)
                  || (r.Fetched? && Newer(TrimV(r.rel.tag), current) && !HasExe(r.rel.assets)))
            && (r == Status(403) ==> answer == Ok(cached))
            && (r == Status(404) ==> answer.Ok? && !answer.value.available)
            && (r.Fetched? && answer.Ok? ==> answer.value == Checked(current, cached, r).0)
  {
  }

  ghost predicate NothingSettled(current: string, rs: seq<Response>) {
    forall j :: 0 <= j < |rs| ==> !Settles(current, rs[j])
  }

  lemma PushUnsettled(current: string, front: seq<Response>, r: Response)
    ensures NothingSettled(current, front + [r]) <==> NothingSettled(current, front) && !Settles(current, r)
  {
    var rs := front + [r];
    assert rs[|front|] == r;
    if NothingSettled(current, rs) {
      assert forall j :: 0 <= j < |front| ==> front[j] == rs[j];
    }
  }

  lemma LastStaysLast(current: string, front: seq<Response>, r: Response, j: nat)
    ensures LastSettled(current, front, j) && !Settles(current, r) ==> LastSettled(current, front + [r], j)
  {
  }

  /**
   * After any sequence of responses: with no settling one the cache holds no update; otherwise
   * the last settling response alone decides it, and an available update is newer than the
   * running version and describes the first binary of that release.
   */
  lemma {:induction false} CacheIsLastSettled(current: string, rs: seq<Response>)
    ensures var cached := CachedAfter(current, rs);
            || (cached == NO_UPDATE && NothingSettled(current, rs))
            || (exists j: nat :: LastSettled(current, rs, j) && DecidedBy(current, cached, rs[j]))
  {
    if rs != [] {
      var front := rs[..|rs| - 1];
      var r := rs[|rs| - 1];
      CacheIsLastSettled(current, front);
      CheckDecides(current, CachedAfter(current, front), r);
      if Settles(current, r) {
        assert LastSettled(current, rs, |rs| - 1);
      } else {
        assert rs == front + [r];
        PushUnsettled(current, front, r);
        if !NothingSettled(current, front) {
          var j: nat :| LastSettled(current, front, j) && DecidedBy(current, CachedAfter(current, front), front[j]);
          LastStaysLast(current, front, r, j);
        }
      }
    }
  }

  /** An available update is always newer than the running version and describes a fetched release. */
  lemma AvailableIsNewer(current: string, rs: seq<Response>)
    ensures CachedAfter(current, rs).available ==>
              Newer(CachedAfter(current, rs).version, current)
              && exists j :: 0 <= j < |rs| && Describes(current, CachedAfter(current, rs), rs[j])
  {
    CacheIsLastSettled(current, rs);
  }
}
