/**
 Preparation manifests and their validation: EditManifest and ImportAsset in
 internal/app/import_types.go, validateManifest in internal/app/import_validation.go.

 `ValidManifest` says which manifests a draft may hold; it is the predicate the storage
 protocol keeps. Real numbers stand for the program's finite floats.
 */
module Manifests {
  import opened Wrappers

  const MAX_PREPARED_PAGES := 10

  type Owner = string
  type Id = string
  type Key = string

  datatype Mime = PdfFile | JpegFile | PngFile

  // A row of import_assets: an uploaded source, or the saved PDF of a piece taken as one.
  datatype Asset = Asset(owner: Owner, key: Key, mime: Mime, size: nat, checksum: string, pages: nat)

  // A page identifier and whether uuid.Parse accepts it.
  datatype PageId = PageId(text: string, uuid: bool)

  datatype Page = Page(id: PageId, source: Id, number: int, angle: real, rotation: int, scale: real, x: real, y: real,
                       width: real, height: real, crop: seq<real>, margins: seq<real>, cleanup: bool,
                       strength: Option<real>, corners: seq<seq<real>>)

  datatype Manifest = Manifest(version: int, pages: seq<Page>)

  const EmptyManifest := Manifest(1, [])

  // A page as the program first adds it, without adjustments.
  function PlainPage(id: PageId, source: Id, number: int): Page {
    Page(id, source, number, 0.0, 0, 0.0, 0.0, 0.0, 0.0, 0.0, [], [], false, None, [])
  }

  // ---------------------------------------------------------------------------
  // What is valid
  // ---------------------------------------------------------------------------

  predicate Within(v: real, low: real, high: real) { low <= v <= high }

  predicate AllWithin(values: seq<real>, high: real) {
    forall i :: 0 <= i < |values| ==> Within(values[i], 0.0, high)
  }

  predicate Placed(p: Page) {
    && Within(p.angle, -10.0, 10.0) && p.rotation in {0, 90, 180, 270} && Within(p.scale, 0.0, 3.0)
    && Within(p.x, -1.0, 1.0) && Within(p.y, -1.0, 1.0)
  }

  predicate Canvassed(p: Page) {
    (p.width == 0.0 && p.height == 0.0) || (Within(p.width, 36.0, 14400.0) && Within(p.height, 36.0, 14400.0))
  }

  predicate Cropped(p: Page) {
    p.crop == []
    || (|p.crop| == 4 && AllWithin(p.crop, 1.0) && p.crop[2] - p.crop[0] >= 0.05 && p.crop[3] - p.crop[1] >= 0.05)
  }

  predicate Margined(p: Page) { p.margins == [] || (|p.margins| == 4 && AllWithin(p.margins, 142.0)) }

  predicate Cleaned(p: Page, mime: Mime) {
    && (p.strength.Some? ==> Within(p.strength.value, 0.0, 1.0))
    && (p.cleanup || p.strength.Some? ==> mime != PdfFile)
  }

  predicate AreCorners(corners: seq<seq<real>>) {
    |corners| == 4 && forall i :: 0 <= i < 4 ==> |corners[i]| == 2 && AllWithin(corners[i], 1.0)
  }

  // Twice the signed area of the triangle c, d, e.
  function Turn(c: seq<real>, d: seq<real>, e: seq<real>): real
    requires |c| == |d| == |e| == 2
  {
    (d[0] - c[0]) * (e[1] - d[1]) - (d[1] - c[1]) * (e[0] - d[0])
  }

  predicate TurnsAt(corners: seq<seq<real>>, i: nat)
    requires AreCorners(corners) && i < 4
  {
    Turn(corners[i], corners[(i + 1) % 4], corners[(i + 2) % 4]) > 0.0001
  }

  predicate Cornered(p: Page, mime: Mime) {
    p.corners == []
    || (mime != PdfFile && AreCorners(p.corners) && forall i: nat :: i < 4 ==> TurnsAt(p.corners, i))
  }

  predicate Adjusted(p: Page, mime: Mime) {
    Placed(p) && Canvassed(p) && Cropped(p) && Margined(p) && Cleaned(p, mime) && Cornered(p, mime)
  }

  // Page p is a page of source a, adjusted within the supported bounds.
  predicate Fits(p: Page, a: Asset) { 0 <= p.number < a.pages && Adjusted(p, a.mime) }

  predicate Counted(m: Manifest, allowEmpty: bool) {
    m.version == 1 && |m.pages| <= MAX_PREPARED_PAGES && (allowEmpty || m.pages != [])
  }

  predicate Identified(pages: seq<Page>) {
    && (forall i :: 0 <= i < |pages| ==> pages[i].id.uuid)
    && (forall i, j :: 0 <= i < j < |pages| ==> pages[i].id.text != pages[j].id.text)
  }

  predicate Sourced(p: Page, sources: map<Id, Asset>) { p.source in sources && Fits(p, sources[p.source]) }

  predicate ValidManifest(m: Manifest, sources: map<Id, Asset>, allowEmpty: bool) {
    && Counted(m, allowEmpty) && Identified(m.pages)
    && forall i :: 0 <= i < |m.pages| ==> Sourced(m.pages[i], sources)
  }

  function SourcesIn(m: Manifest): set<Id> { set i | 0 <= i < |m.pages| :: m.pages[i].source }

  // Four accepted corners are a convex page: every corner lies strictly inside each edge
  // it is not an end of.
  lemma CornersAreConvex(corners: seq<seq<real>>, i: nat)
    requires AreCorners(corners) && i < 4 && forall k: nat :: k < 4 ==> TurnsAt(corners, k)
    ensures Turn(corners[i], corners[(i + 1) % 4], corners[(i + 2) % 4]) > 0.0
    ensures Turn(corners[i], corners[(i + 1) % 4], corners[(i + 3) % 4]) > 0.0
  {
    var before := (i + 3) % 4;
    assert TurnsAt(corners, i) && TurnsAt(corners, before);
    assert (before + 1) % 4 == i && (before + 2) % 4 == (i + 1) % 4;
    SameTriangle(corners[before], corners[i], corners[(i + 1) % 4]);
  }

  lemma SameTriangle(c: seq<real>, d: seq<real>, e: seq<real>)
    requires |c| == |d| == |e| == 2
    ensures Turn(c, d, e) == Turn(d, e, c)
  {
  }

  // ---------------------------------------------------------------------------
  // Validation
  // ---------------------------------------------------------------------------

  function Abs(v: real): real { if v < 0.0 then -v else v }

  method UnitValues(values: seq<real>) returns (ok: bool)
    ensures ok <==> AllWithin(values, 1.0)
  {
    for i := 0 to |values|
      invariant AllWithin(values[..i], 1.0)
    {
      if values[i] < 0.0 || values[i] > 1.0 {
        return false;
      }
      assert values[..i + 1] == values[..i] + [values[i]];
    }
    assert values[..|values|] == values;
    return true;
  }

  method MarginsFit(margins: seq<real>) returns (ok: bool)
    ensures ok <==> AllWithin(margins, 142.0)
  {
    for i := 0 to |margins|
      invariant forall k :: 0 <= k < i ==> Within(margins[k], 0.0, 142.0)
    {
      if margins[i] < 0.0 || margins[i] > 142.0 {
        return false;
      }
    }
    return true;
  }

  method CornersFit(corners: seq<seq<real>>) returns (ok: bool)
    requires |corners| == 4
    ensures ok <==> AreCorners(corners) && forall i: nat :: i < 4 ==> TurnsAt(corners, i)
  {
    for i := 0 to 4
      invariant forall k :: 0 <= k < i ==> |corners[k]| == 2 && AllWithin(corners[k], 1.0)
    {
      if |corners[i]| != 2 {
        return false;
      }
      var unit := UnitValues(corners[i]);
      if !unit {
        return false;
      }
    }
    for i := 0 to 4
      invariant forall k: nat :: k < i ==> TurnsAt(corners, k)
    {
      if Turn(corners[i], corners[(i + 1) % 4], corners[(i + 2) % 4]) <= 0.0001 {
        assert !TurnsAt(corners, i);
        return false;
      }
    }
    return true;
  }

  method PageFits(p: Page, a: Asset) returns (ok: bool)
    requires 0 <= p.number < a.pages
    ensures ok <==> Fits(p, a)
  {
    if Abs(p.angle) > 10.0 || p.rotation % 90 != 0 || p.rotation < 0 || p.rotation > 270 || p.scale < 0.0
       || p.scale > 3.0 || Abs(p.x) > 1.0 || Abs(p.y) > 1.0
    {
      return false;
    }
    if (p.width != 0.0 || p.height != 0.0)
       && (p.width < 36.0 || p.width > 14400.0 || p.height < 36.0 || p.height > 14400.0)
    {
      return false;
    }
    if |p.crop| > 0 {
      var unit := UnitValues(p.crop);
      if |p.crop| != 4 || !unit || p.crop[2] - p.crop[0] < 0.05 || p.crop[3] - p.crop[1] < 0.05 {
        return false;
      }
    }
    if |p.margins| > 0 {
      var fit := MarginsFit(p.margins);
      if |p.margins| != 4 || !fit {
        return false;
      }
    }
    if p.strength.Some? && (p.strength.value < 0.0 || p.strength.value > 1.0) {
      return false;
    }
    if (p.cleanup || p.strength.Some?) && a.mime == PdfFile {
      return false;
    }
    if |p.corners| > 0 {
      if a.mime == PdfFile || |p.corners| != 4 {
        return false;
      }
      var fit := CornersFit(p.corners);
      if !fit {
        return false;
      }
    }
    return true;
  }

  // The draft's sources by identifier; a later row of the same identifier would win.
  function ById(sources: seq<(Id, Asset)>): map<Id, Asset> {
    if sources == [] then map[]
    else
      var last := sources[|sources| - 1];
      ById(sources[..|sources| - 1])[last.0 := last.1]
  }

  method AssetsById(sources: seq<(Id, Asset)>) returns (assets: map<Id, Asset>)
    ensures assets == ById(sources)
  {
    assets := map[];
    for i := 0 to |sources|
      invariant assets == ById(sources[..i])
    {
      assets := assets[sources[i].0 := sources[i].1];
      assert sources[..i + 1][..i] == sources[..i];
    }
    assert sources[..|sources|] == sources;
  }

  method ValidateManifest(m: Manifest, sources: seq<(Id, Asset)>, allowEmpty: bool) returns (ok: bool)
    ensures ok <==> ValidManifest(m, ById(sources), allowEmpty)
  {
    if m.version != 1 || |m.pages| > MAX_PREPARED_PAGES || (!allowEmpty && |m.pages| == 0) {
      return false;
    }
    var assets := AssetsById(sources);
    var seen: set<string> := {};
    for i := 0 to |m.pages|
      invariant seen == set k | 0 <= k < i :: m.pages[k].id.text
      invariant forall k :: 0 <= k < i ==> m.pages[k].id.uuid
      invariant forall j, k :: 0 <= j < k < i ==> m.pages[j].id.text != m.pages[k].id.text
      invariant forall k :: 0 <= k < i ==> Sourced(m.pages[k], assets)
    {
      var p := m.pages[i];
      if !p.id.uuid || p.id.text in seen {
        return false;
      }
      seen := seen + {p.id.text};
      if p.source !in assets {
        return false;
      }
      var a := assets[p.source];
      if p.number < 0 || p.number >= a.pages {
        return false;
      }
      var fits := PageFits(p, a);
      if !fits {
        return false;
      }
    }
    return true;
  }

  // ---------------------------------------------------------------------------
  // What keeps a manifest valid
  // ---------------------------------------------------------------------------

  // Sources may be added or dropped as long as those the pages name stay as they are.
  lemma StaysValid(m: Manifest, sources: map<Id, Asset>, after: map<Id, Asset>, allowEmpty: bool)
    requires ValidManifest(m, sources, allowEmpty)
    requires forall id :: id in SourcesIn(m) && id in sources ==> id in after && after[id] == sources[id]
    ensures ValidManifest(m, after, allowEmpty)
  {
  }

  // Pages 0.. of source id, identified by ids.
  function PagesOf(id: Id, ids: seq<PageId>): seq<Page> { seq(|ids|, n requires 0 <= n < |ids| => PlainPage(ids[n], id, n)) }

  predicate FreshIds(ids: seq<PageId>, pages: seq<Page>) {
    && (forall i :: 0 <= i < |ids| ==> ids[i].uuid)
    && (forall i, j :: 0 <= i < j < |ids| ==> ids[i].text != ids[j].text)
    && (forall i, j :: 0 <= i < |ids| && 0 <= j < |pages| ==> ids[i].text != pages[j].id.text)
  }

  function Appended(m: Manifest, id: Id, ids: seq<PageId>): Manifest { m.(pages := m.pages + PagesOf(id, ids)) }

  // Appending the unadjusted first pages of a source keeps a manifest valid.
  lemma AppendedIsValid(m: Manifest, sources: map<Id, Asset>, allowEmpty: bool, id: Id, ids: seq<PageId>)
    requires ValidManifest(m, sources, allowEmpty) && id in sources && |ids| <= sources[id].pages
    requires |m.pages| + |ids| <= MAX_PREPARED_PAGES && FreshIds(ids, m.pages)
    ensures ValidManifest(Appended(m, id, ids), sources, allowEmpty)
    ensures ids != [] ==> ValidManifest(Appended(m, id, ids), sources, false)
  {
  }
}
