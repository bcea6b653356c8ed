/** The search pipeline of earth_crawler.py (`EarthCrawler`): it resolves each
    requested region, finds its administrative subdivisions, draws their
    borders and populated places into an overlay-map document and collects
    the places' addresses into spreadsheet sheets.

    The geodata services are not modelled; every method that would call one
    receives it as a function-typed parameter (`Services`). */
module Crawler {
  import opened Results
  import opened Seqs
  import opened Text
  import opened Osm
  import opened Kml
  import opened Tempdata
  import opened SearchRules

  /** What the crawler gets back from the two geodata services. */
  datatype Services = Services(
    // the name resolver's candidate list for a search
    search: NominatimQuery -> seq<Candidate>,
    // the boundary relations of an admin level inside an area; `None` when the
    // result has no relation list (taking its length raises TypeError)
    boundaries: (string, int) -> Option<seq<Relation>>,
    // the parsed boundary geometry of an element
    geometry: ElementRef -> Geometry,
    // the populated-place nodes a spatial query text returns
    places: string -> seq<PlaceNode>,
    // the address of an element in a language
    address: (ElementRef, string) -> Tags)

  /** One spreadsheet sheet: its name and its address rows. */
  datatype Sheet = Sheet(name: string, rows: seq<AddressRecord>)

  /** A file the crawler writes out. */
  datatype ExportedFile =
    | KmlFile(fileName: string, features: seq<Feature>)
    | ExcelFile(fileName: string, sheets: seq<Sheet>)

  /** The name-resolver search for a requested name: free text when the search
      type is `world` or empty, otherwise the name given for the field named by
      the search type. */
  function SearchQuery(searchType: string, name: string, language: string): (q: NominatimQuery)
    ensures q.FreeText? <==> searchType == "world" || searchType == ""
    ensures q.language == language
    ensures q.FreeText? ==> q.text == name
    ensures q.Structured? ==> q.field == searchType && q.value == name
  {
    if searchType == "world" || searchType == "" then FreeText(name, language)
    else Structured(searchType, name, language)
  }

  /** The settings the region loop of `second_nominatim_search` reads. */
  datatype RunSettings = RunSettings(borders: bool, locations: bool, language: string,
                                     choice: seq<string>, toLines: bool, toExcel: bool)

  function SettingsOf(t: TempData): RunSettings
    reads t`searchBorders, t`searchLocations, t`objectsLanguage, t`searchPlacesChoice
    reads t`polygonsToLines, t`exportToExcel
  {
    RunSettings(t.searchBorders, t.searchLocations, t.objectsLanguage, t.searchPlacesChoice,
                t.polygonsToLines, t.exportToExcel)
  }

  /** The progress fields of the store that the searches write for the
      interface to show. */
  datatype Progress = Progress(stage: int, stageNum: int, subObjNumber: int, areaObjNumber: int,
                               obj: int, areaObj: int, areaName: string, subName: string)

  function ProgressOf(t: TempData): Progress
    reads t`currentStage, t`currentStageNum, t`subObjNumber, t`currentAreaObjNumber
    reads t`currentObj, t`currentAreaObj, t`currentAreaObjName, t`currentSubObjName
  {
    Progress(t.currentStage, t.currentStageNum, t.subObjNumber, t.currentAreaObjNumber,
             t.currentObj, t.currentAreaObj, t.currentAreaObjName, t.currentSubObjName)
  }

  /** What the region loop has produced so far: the document's features, the
      sheets written, and the progress shown (its area name is the next
      sheet's name). */
  datatype RunState = RunState(features: seq<Feature>, sheets: seq<Sheet>, progress: Progress)

  /** Where the region loop ends: the state reached, and the error it stopped
      with, if any. */
  datatype RunOutcome = RunOutcome(state: RunState, error: Option<Uncaught>)

  /** Region `i` of `second_nominatim_search`: a top-level folder named after
      the region when both borders and places are searched (failing with the
      KeyError of the name choice, before anything changes), then its
      contents, then the stage count reset. */
  function RegionStep(st: RunState, i: int, region: Relation, s: RunSettings, sv: Services): Result<RunState, Uncaught> {
    var both := s.borders && s.locations;
    var name := ChooseName(region.tags, s.language);
    if both && name.Failure? then Failure(name.error)
    else
      var fs0 := if both then st.features + [Folder(name.value, Document)] else st.features;
      var parent := if both then InFolder(|st.features|) else Document;
      var r := PlaceStep(BorderStep(RunState(fs0, st.sheets, st.progress), i, parent, region, s, sv), parent, region, s, sv);
      Success(r.(progress := r.progress.(stageNum := 0)))
  }

  /** `regions_search` of region `i` when borders are searched: the stage is
      borders, the stage count goes up by one, the region is the current
      object and area, its `name:<language>` tag the area and sub-object
      name, and its border shapes are placed in `parent` after the features
      so far. */
  function BorderStep(st: RunState, i: int, parent: Parent, region: Relation, s: RunSettings, sv: Services): RunState {
    if s.borders then
      var areaName := TagOrNone(region.tags, "name:" + s.language);
      var shapes := WktFeatures(|st.features|, parent, sv.geometry(RelationRef(region.id)), areaName, s.toLines);
      var p := st.progress.(stage := 0, stageNum := st.progress.stageNum + 1, obj := i, areaObj := i,
                            areaName := areaName, subName := areaName);
      RunState(st.features + shapes, st.sheets, p)
    else st
  }

  /** `locations_search` when places are searched: the stage is places, the
      stage count goes up by one, the number of places found is recorded,
      the kept records' points are placed in `parent` after the features so
      far, their sheet, named after the current area, is written when
      spreadsheets are exported, and the last kept record becomes the current
      object. */
  function PlaceStep(st: RunState, parent: Parent, region: Relation, s: RunSettings, sv: Services): RunState {
    if s.locations then
      var nodes := sv.places(PointsQuery(region.areaId, s.choice));
      var all := RecordsOf(nodes, sv.address, s.language, s.choice);
      var records := Kept(all);
      var mark := LastMark(all, st.progress.obj, st.progress.subName);
      var sheets := if s.toExcel then st.sheets + [Sheet(st.progress.areaName, records)] else st.sheets;
      var p := st.progress.(stage := 1, stageNum := st.progress.stageNum + 1, subObjNumber := |nodes|,
                            obj := mark.0, subName := mark.1);
      RunState(st.features + Placemarks(parent, records), sheets, p)
    else st
  }

  /** The regions from position `i` on, in order, stopping at the first
      failure with the state the regions before it left. */
  function RunRegions(st: RunState, rels: seq<Relation>, i: nat, s: RunSettings, sv: Services): RunOutcome
    requires i <= |rels|
    decreases |rels| - i
  {
    if i == |rels| then RunOutcome(st, None)
    else
      match RegionStep(st, i, rels[i], s, sv)
      case Failure(e) => RunOutcome(st, Some(e))
      case Success(next) => RunRegions(next, rels, i + 1, s, sv)
  }

  /** A region fails exactly when both borders and places are searched and
      none of its name tags is present; the error is that name lookup's KeyError. */
  lemma RegionStepFails(st: RunState, i: int, region: Relation, s: RunSettings, sv: Services)
    ensures RegionStep(st, i, region, s, sv).Failure?
        <==> s.borders && s.locations && ChooseName(region.tags, s.language).Failure?
    ensures RegionStep(st, i, region, s, sv).Failure? ==> RegionStep(st, i, region, s, sv).error == KeyError("name")
  {
  }

  /** Some region from position `i` on has none of the name tags. */
  predicate NamelessFrom(rels: seq<Relation>, i: nat, language: string) {
    exists k :: i <= k < |rels| && ChooseName(rels[k].tags, language).Failure?
  }

  lemma NamelessFromStep(rels: seq<Relation>, i: nat, language: string)
    requires i < |rels|
    ensures NamelessFrom(rels, i, language)
        <==> ChooseName(rels[i].tags, language).Failure? || NamelessFrom(rels, i + 1, language)
  {
    if NamelessFrom(rels, i, language) && ChooseName(rels[i].tags, language).Success? {
      var k :| i <= k < |rels| && ChooseName(rels[k].tags, language).Failure?;
      assert i + 1 <= k;
    }
  }

  /** The loop fails exactly when some remaining region fails, with the name
      lookup's KeyError. */
  lemma {:induction false} RunRegionsFails(st: RunState, rels: seq<Relation>, i: nat, s: RunSettings, sv: Services)
    requires i <= |rels|
    ensures RunRegions(st, rels, i, s, sv).error.Some?
        <==> s.borders && s.locations && NamelessFrom(rels, i, s.language)
    ensures RunRegions(st, rels, i, s, sv).error.Some? ==> RunRegions(st, rels, i, s, sv).error == Some(KeyError("name"))
    decreases |rels| - i
  {
    if i < |rels| {
      RegionStepFails(st, i, rels[i], s, sv);
      NamelessFromStep(rels, i, s.language);
      var step := RegionStep(st, i, rels[i], s, sv);
      if step.Success? {
        RunRegionsFails(step.value, rels, i + 1, s, sv);
      }
    }
  }

  /** After a loop that handled at least one region without error, the stage
      count is back at 0. */
  lemma {:induction false} RunRegionsResetsStageNum(st: RunState, rels: seq<Relation>, i: nat, s: RunSettings, sv: Services)
    requires i < |rels| && RunRegions(st, rels, i, s, sv).error.None?
    ensures RunRegions(st, rels, i, s, sv).state.progress.stageNum == 0
    decreases |rels| - i
  {
    var next := RegionStep(st, i, rels[i], s, sv).value;
    if i + 1 < |rels| {
      RunRegionsResetsStageNum(next, rels, i + 1, s, sv);
    }
  }

  /** A region only appends: the features and sheets before it are kept, and
      it writes exactly one sheet when places are searched and spreadsheets exported. */
  lemma RegionStepAppends(st: RunState, i: int, region: Relation, s: RunSettings, sv: Services)
    requires RegionStep(st, i, region, s, sv).Success?
    ensures var next := RegionStep(st, i, region, s, sv).value;
      && |st.features| <= |next.features| && next.features[..|st.features|] == st.features
      && next.sheets == st.sheets + (if s.locations && s.toExcel then [next.sheets[|next.sheets| - 1]] else [])
  {
  }

  /** The loop only appends, and writes one sheet per region when places are
      searched and spreadsheets exported, none otherwise. */
  lemma {:induction false} RunRegionsAppends(st: RunState, rels: seq<Relation>, i: nat, s: RunSettings, sv: Services)
    requires i <= |rels| && RunRegions(st, rels, i, s, sv).error.None?
    ensures var out := RunRegions(st, rels, i, s, sv).state;
      && |st.features| <= |out.features| && out.features[..|st.features|] == st.features
      && |st.sheets| <= |out.sheets| && out.sheets[..|st.sheets|] == st.sheets
      && |out.sheets| == |st.sheets| + (if s.locations && s.toExcel then |rels| - i else 0)
    decreases |rels| - i
  {
    if i < |rels| {
      var next := RegionStep(st, i, rels[i], s, sv).value;
      RegionStepAppends(st, i, rels[i], s, sv);
      RunRegionsAppends(next, rels, i + 1, s, sv);
      var out := RunRegions(st, rels, i, s, sv).state;
      assert out.features[..|next.features|][..|st.features|] == out.features[..|st.features|];
      assert out.sheets[..|next.sheets|][..|st.sheets|] == out.sheets[..|st.sheets|];
    }
  }

  /** Every overlay-map file among `fs` has one of the names in `kmlNames`. */
  predicate FilesNamed(fs: seq<ExportedFile>, kmlNames: set<string>) {
    forall k :: 0 <= k < |fs| ==> fs[k].ExcelFile? || fs[k].fileName in kmlNames
  }

  /** The overlay-map file names the requests can be saved under. */
  function RequestFileNames(reqs: seq<SearchRequest>, toLines: bool): set<string> {
    set r | r in reqs :: KmlFileName(r.name, toLines)
  }

  lemma FilesNamedAppend(a: seq<ExportedFile>, b: seq<ExportedFile>, kmlNames: set<string>)
    requires FilesNamed(a, kmlNames) && FilesNamed(b, kmlNames)
    ensures FilesNamed(a + b, kmlNames)
  {
    forall k | 0 <= k < |a + b| ensures (a + b)[k].ExcelFile? || (a + b)[k].fileName in kmlNames {
      if k >= |a| {
        assert (a + b)[k] == b[k - |a|];
      }
    }
  }

  /** What one request saves is named after that request. */
  lemma SavedNamed(req: SearchRequest, reqs: seq<SearchRequest>, saved: seq<ExportedFile>, toExcel: bool, toKml: bool,
                   toLines: bool, writerFile: string, sheets: seq<Sheet>, features: seq<Feature>)
    requires req in reqs
    requires saved == [] || saved == Saved(req.name, toExcel, toKml, toLines, writerFile, sheets, features)
    ensures FilesNamed(saved, RequestFileNames(reqs, toLines)) && |saved| <= 2
  {
    assert KmlFileName(req.name, toLines) in RequestFileNames(reqs, toLines);
  }

  /** The attribute a missing spreadsheet writer is reported as. */
  const WriterAttribute: string := "excel_writer"

  /** The relation list the two first searches find for a request: the
      IndexError of the name resolver without candidates, otherwise the answer
      of the admin-level fallback inside the first candidate's area. */
  function Answer(req: SearchRequest, sv: Services, searchType: string, language: string)
    : Result<Option<seq<Relation>>, Uncaught>
  {
    match AreaId(sv.search(SearchQuery(searchType, req.name, language)))
    case Failure(e) => Failure(e)
    case Success(id) => Success(OverpassAnswer(id, TryList(req.adminLevel, AdminLevelFallback), sv.boundaries))
  }

  /** The files saved for a request without error: the spreadsheet first, then
      the overlay map named after the request, each when its export is on. */
  function Saved(name: string, toExcel: bool, toKml: bool, toLines: bool, writerFile: string,
                 sheets: seq<Sheet>, features: seq<Feature>): (fs: seq<ExportedFile>)
    ensures |fs| == (if toExcel then 1 else 0) + (if toKml then 1 else 0)
    ensures toExcel ==> fs[0] == ExcelFile(writerFile, sheets)
    ensures toKml ==> fs[|fs| - 1] == KmlFile(KmlFileName(name, toLines), features)
  {
    (if toExcel then [ExcelFile(writerFile, sheets)] else [])
    + (if toKml then [KmlFile(KmlFileName(name, toLines), features)] else [])
  }

  class EarthCrawler {
    /** The settings and progress store shared with the user interface. */
    const tmp: TempData
    /** The overlay-map document of the current request. */
    const kml: KmlDocument
    /** Whether a spreadsheet writer has been created (`self.excel_writer`). */
    var hasWriter: bool
    /** The file the spreadsheet writer writes to. */
    var writerFile: string
    /** The sheets written to the spreadsheet writer so far. */
    var sheets: seq<Sheet>
    /** The files saved so far, in order. */
    var exports: seq<ExportedFile>

    ghost predicate Valid()
      reads this, kml
    {
      kml.Valid()
    }

    constructor (t: TempData)
      ensures tmp == t && fresh(kml) && Valid() && kml.features == []
      ensures !hasWriter && writerFile == "" && sheets == [] && exports == []
    {
      tmp := t;
      kml := new KmlDocument();
      hasWriter := false;
      writerFile := "";
      sheets := [];
      exports := [];
    }

    /** `admin_level_try_list_creator`: the requested level, then the given
        levels without it, in their order. */
    method AdminLevelTryListCreator(targetVal: int, valuesList: seq<int>) returns (outputList: seq<int>)
      ensures outputList == TryList(targetVal, valuesList)
    {
      outputList := [targetVal];
      for i := 0 to |valuesList|
        invariant outputList == [targetVal] + Without(valuesList[..i], targetVal)
      {
        WithoutSnoc(valuesList, i, targetVal);
        if valuesList[i] != targetVal {
          SeqAssoc([targetVal], Without(valuesList[..i], targetVal), [valuesList[i]]);
          outputList := outputList + [valuesList[i]];
        }
      }
      assert valuesList[..|valuesList|] == valuesList;
    }

    /** `search_line_proccessing`: the requests of the search line, or the
        ValueError of the first segment whose level is not an integer. */
    method SearchLineProcessing() returns (r: Result<seq<SearchRequest>, Uncaught>)
      ensures r == ParseSearchLine(tmp.searchLine)
    {
      var searchList: seq<SearchRequest> := [];
      var firstSplitLst := Split(tmp.searchLine, ';');
      assert firstSplitLst[0..] == firstSplitLst;
      AfterNothing(ParseSegments(firstSplitLst));
      for i := 0 to |firstSplitLst|
        invariant After(searchList, ParseSegments(firstSplitLst[i..])) == ParseSegments(firstSplitLst)
      {
        var strp := Strip(firstSplitLst[i]);
        ParseSegmentsStep(firstSplitLst[i..]);
        assert firstSplitLst[i..][1..] == firstSplitLst[i + 1..];
        if strp != "" {
          var locTuple := ReadSegment(strp);
          if locTuple.Failure? {
            return Failure(locTuple.error);
          }
          AfterAfter(searchList, [locTuple.value], ParseSegments(firstSplitLst[i + 1..]));
          searchList := searchList + [locTuple.value];
        }
      }
      assert firstSplitLst[|firstSplitLst|..] == [];
      assert searchList + [] == searchList;
      r := Success(searchList);
    }

    /** One stripped, non-blank segment of `search_line_proccessing`. */
    method ReadSegment(strp: string) returns (r: Result<SearchRequest, Uncaught>)
      ensures r == ParseSegment(strp)
    {
      if '=' in strp {
        var locLst := Split(strp, '=');
        SplitAtFirst(strp, '=');
        FirstIndexFound(strp, '=');
        match ParseInt(locLst[1]) {
          case None =>
            r := Failure(ValueError(locLst[1]));
          case Some(level) =>
            r := Success(SearchRequest(locLst[0], level));
        }
      } else {
        r := Success(SearchRequest(strp, DefaultAdminLevel));
      }
    }

    /** `add_kml_object`: the shapes for the given types and mode, added to `kmlLevel`. */
    method AddKmlObject(kmlLevel: Parent, coords: seq<LonLat>, objName: string, objTypes: seq<string>)
      requires Valid() && IsContainer(kml.features, kmlLevel)
      modifies kml
      ensures Valid()
      ensures kml.features == old(kml.features) + KmlObjectFeatures(kmlLevel, coords, objName, objTypes, tmp.polygonsToLines)
    {
      if "Polygon" in objTypes && !tmp.polygonsToLines {
        kml.NewPolygon(kmlLevel, objName, coords);
      }
      if "Line" in objTypes || tmp.polygonsToLines {
        kml.NewLineString(kmlLevel, objName, coords);
      }
    }

    /** `proccess_loaded_wkt`: the shapes of a loaded boundary geometry, named
        after the current sub-object. */
    method ProcessLoadedWkt(kmlDoc: Parent, loadedWkt: Geometry)
      requires Valid() && IsContainer(kml.features, kmlDoc)
      modifies kml
      ensures Valid()
      ensures kml.features == old(kml.features)
                + WktFeatures(|old(kml.features)|, kmlDoc, loadedWkt, tmp.currentSubObjName, tmp.polygonsToLines)
    {
      var name := tmp.currentSubObjName;
      var toLines := tmp.polygonsToLines;
      match loadedWkt {
        case MultiPolygon(polygons) =>
          var multiPolyFolder := kml.NewFolder(kmlDoc, name);
          AddPolygonParts(multiPolyFolder, polygons, name);
          SeqAssoc(old(kml.features), [Folder(name, kmlDoc)], PartShapes(multiPolyFolder, polygons, name, toLines));
        case Polygon(exterior) =>
          AddKmlObject(kmlDoc, exterior, name, ["Polygon"]);
          PolygonTypeOneShape(kmlDoc, exterior, name, toLines);
        case OtherGeometry(_) =>
      }
    }

    /** The loop of `proccess_loaded_wkt` over the polygons of a multi-polygon:
        one shape per polygon in `folder`, numbered from 1. */
    method AddPolygonParts(folder: Parent, polygons: seq<seq<LonLat>>, name: string)
      requires Valid() && IsContainer(kml.features, folder)
      modifies kml
      ensures Valid()
      ensures kml.features == old(kml.features) + PartShapes(folder, polygons, name, tmp.polygonsToLines)
    {
      var toLines := tmp.polygonsToLines;
      for i := 0 to |polygons|
        invariant Valid() && IsContainer(kml.features, folder)
        invariant kml.features == old(kml.features) + PartShapes(folder, polygons[..i], name, toLines)
      {
        var coords := polygons[i];
        var iObjName := name + "_" + NatToString(i + 1);
        AddKmlObject(folder, coords, iObjName, ["Polygon"]);
        PolygonTypeOneShape(folder, coords, iObjName, toLines);
        PartShapesSnoc(folder, polygons, i, name, toLines);
        SeqAssoc(old(kml.features), PartShapes(folder, polygons[..i], name, toLines),
                 [RingShape(folder, coords, PartName(name, i + 1), toLines)]);
      }
      assert polygons[..|polygons|] == polygons;
    }

    /** `regions_search`: records the region as the current object and draws
        its border. */
    method RegionsSearch(index: int, region: Relation, kmlDoc: Parent, geometryOf: ElementRef -> Geometry)
      requires Valid() && IsContainer(kml.features, kmlDoc)
      modifies tmp`currentStage, tmp`currentStageNum, tmp`currentObj, tmp`currentAreaObj
      modifies tmp`currentAreaObjName, tmp`currentSubObjName, kml
      ensures Valid()
      ensures tmp.currentStage == 0 && tmp.currentStageNum == old(tmp.currentStageNum) + 1
      ensures tmp.currentObj == index && tmp.currentAreaObj == index
      ensures tmp.currentAreaObjName == TagOrNone(region.tags, "name:" + tmp.objectsLanguage)
      ensures tmp.currentSubObjName == tmp.currentAreaObjName
      ensures kml.features == old(kml.features)
                + WktFeatures(|old(kml.features)|, kmlDoc, geometryOf(RelationRef(region.id)),
                              tmp.currentSubObjName, tmp.polygonsToLines)
    {
      tmp.currentStage := 0;
      tmp.currentStageNum := tmp.currentStageNum + 1;
      tmp.currentObj := index;
      tmp.currentAreaObj := index;
      tmp.currentAreaObjName := TagOrNone(region.tags, "name:" + tmp.objectsLanguage);
      tmp.currentSubObjName := TagOrNone(region.tags, "name:" + tmp.objectsLanguage);
      var loadedWkt := geometryOf(RelationRef(region.id));
      ProcessLoadedWkt(kmlDoc, loadedWkt);
    }

    /** `locations_search`: queries the region's populated places, builds an
        address record for each, adds a point for each record with a location
        and, when spreadsheets are exported, writes the kept records as a sheet
        named after the current area. The source only builds the query when
        places are searched, and is only called then. */
    method LocationsSearch(index: int, region: Relation, kmlDoc: Parent,
                           places: string -> seq<PlaceNode>, address: (ElementRef, string) -> Tags)
      requires tmp.searchLocations
      requires Valid() && IsContainer(kml.features, kmlDoc)
      modifies tmp`currentStage, tmp`currentStageNum, tmp`subObjNumber, tmp`currentObj, tmp`currentSubObjName
      modifies kml, this`sheets
      ensures Valid()
      ensures var nodes := places(PointsQuery(region.areaId, tmp.searchPlacesChoice));
              var all := RecordsOf(nodes, address, tmp.objectsLanguage, tmp.searchPlacesChoice);
              var records := Kept(all);
        && tmp.currentStage == 1 && tmp.currentStageNum == old(tmp.currentStageNum) + 1
        && tmp.subObjNumber == |nodes|
        && kml.features == old(kml.features) + Placemarks(kmlDoc, records)
        && sheets == (if tmp.exportToExcel then old(sheets) + [Sheet(tmp.currentAreaObjName, records)] else old(sheets))
        && (tmp.currentObj, tmp.currentSubObjName)
           == LastMark(all, old(tmp.currentObj), old(tmp.currentSubObjName))
    {
      var points := FetchPoints(region, places);
      MarkAndWrite(points, kmlDoc, address);
    }

    /** The start of `locations_search`: the stage is set to places, and the
        spatial query for the places of the chosen kinds inside the region's
        area gives the points and their number. */
    method FetchPoints(region: Relation, places: string -> seq<PlaceNode>) returns (points: seq<PlaceNode>)
      modifies tmp`currentStage, tmp`currentStageNum, tmp`subObjNumber
      ensures points == places(PointsQuery(region.areaId, tmp.searchPlacesChoice))
      ensures tmp.currentStage == 1 && tmp.currentStageNum == old(tmp.currentStageNum) + 1
      ensures tmp.subObjNumber == |points|
    {
      tmp.currentStage := 1;
      tmp.currentStageNum := tmp.currentStageNum + 1;
      var choices := tmp.searchPlacesChoice;
      var baseReqLine := BuildPointsQuery(region.areaId, choices);
      points := places(baseReqLine);
      tmp.subObjNumber := |points|;
    }

    /** The points loop of `locations_search`, then the sheet of the kept
        records when spreadsheets are exported. */
    method MarkAndWrite(points: seq<PlaceNode>, kmlDoc: Parent, address: (ElementRef, string) -> Tags)
      requires Valid() && IsContainer(kml.features, kmlDoc)
      modifies tmp`currentObj, tmp`currentSubObjName, kml, this`sheets
      ensures Valid()
      ensures var all := RecordsOf(points, address, tmp.objectsLanguage, tmp.searchPlacesChoice);
              var records := Kept(all);
        && kml.features == old(kml.features) + Placemarks(kmlDoc, records)
        && sheets == (if tmp.exportToExcel then old(sheets) + [Sheet(tmp.currentAreaObjName, records)] else old(sheets))
        && (tmp.currentObj, tmp.currentSubObjName) == LastMark(all, old(tmp.currentObj), old(tmp.currentSubObjName))
    {
      var dictList := MarkPlaces(points, kmlDoc, address);
      if tmp.exportToExcel {
        WriteSheet(tmp.currentAreaObjName, dictList);
      }
    }

    /** One point of `locations_search`: its address record, and a point mark
        named after its location when it has one. */
    method MarkPlace(i: int, p: PlaceNode, kmlDoc: Parent, address: (ElementRef, string) -> Tags, keysList: seq<string>)
      returns (record: AddressRecord)
      requires keysList == KeysList(tmp.searchPlacesChoice)
      requires Valid() && IsContainer(kml.features, kmlDoc)
      modifies tmp`currentObj, tmp`currentSubObjName, kml
      ensures Valid()
      ensures record == RecordOf(p, address, tmp.objectsLanguage, tmp.searchPlacesChoice)
      ensures HasLocation(record) ==>
        && kml.features == old(kml.features) + [PointMark(record.fields["location"], kmlDoc, [LonLat(record.lon, record.lat)])]
        && tmp.currentObj == i && tmp.currentSubObjName == record.fields["location"]
      ensures !HasLocation(record) ==>
        kml.features == old(kml.features) && tmp.currentObj == old(tmp.currentObj)
        && tmp.currentSubObjName == old(tmp.currentSubObjName)
    {
      var adr := address(NodeRef(p.id), tmp.objectsLanguage);
      var adrMod := CollectAddress(adr, tmp.searchPlacesChoice, keysList);
      record := AddressRecord(adrMod, p.position.lon, p.position.lat);
      if "location" in adrMod {
        kml.NewPoint(kmlDoc, adrMod["location"], [LonLat(p.position.lon, p.position.lat)]);
        tmp.currentObj := i;
        tmp.currentSubObjName := adrMod["location"];
      }
    }

    /** `to_excel` on the writer: one more sheet. */
    method WriteSheet(name: string, rows: seq<AddressRecord>)
      modifies this`sheets
      ensures sheets == old(sheets) + [Sheet(name, rows)]
    {
      sheets := sheets + [Sheet(name, rows)];
    }

    /** The first `i` of the records `all` have been handled: the kept ones
        collected, their points added after `features0`, and the progress shown
        is that of the last kept one (`(obj0, sub0)` before any). */
    ghost predicate MarkedUpTo(all: seq<AddressRecord>, i: nat, kmlDoc: Parent, features0: seq<Feature>,
                               obj0: int, sub0: string, dictList: seq<AddressRecord>)
      reads tmp, kml
    {
      && i <= |all|
      && dictList == Kept(all[..i])
      && kml.features == features0 + Placemarks(kmlDoc, dictList)
      && (tmp.currentObj, tmp.currentSubObjName) == LastMark(all[..i], obj0, sub0)
    }

    /** The loop over the points of `locations_search`: the address record of
        each point, a point mark for each record with a location, and the kept
        records in point order. */
    method MarkPlaces(points: seq<PlaceNode>, kmlDoc: Parent, address: (ElementRef, string) -> Tags)
      returns (dictList: seq<AddressRecord>)
      requires Valid() && IsContainer(kml.features, kmlDoc)
      modifies tmp`currentObj, tmp`currentSubObjName, kml
      ensures Valid()
      ensures var all := RecordsOf(points, address, tmp.objectsLanguage, tmp.searchPlacesChoice);
        && dictList == Kept(all)
        && kml.features == old(kml.features) + Placemarks(kmlDoc, dictList)
        && (tmp.currentObj, tmp.currentSubObjName) == LastMark(all, old(tmp.currentObj), old(tmp.currentSubObjName))
    {
      var keysList := KeysList(tmp.searchPlacesChoice);
      ghost var all := RecordsOf(points, address, tmp.objectsLanguage, tmp.searchPlacesChoice);
      dictList := [];
      assert all[..0] == [];
      for i := 0 to |points|
        invariant Valid() && IsContainer(kml.features, kmlDoc)
        invariant tmp.searchPlacesChoice == old(tmp.searchPlacesChoice) && tmp.objectsLanguage == old(tmp.objectsLanguage)
        invariant MarkedUpTo(all, i, kmlDoc, old(kml.features), old(tmp.currentObj), old(tmp.currentSubObjName), dictList)
      {
        dictList := MarkNext(points, i, kmlDoc, address, keysList, all, old(kml.features),
                             old(tmp.currentObj), old(tmp.currentSubObjName), dictList);
      }
      assert all[..|points|] == all;
    }

    /** One iteration of the points loop: point `i` is handled. */
    method MarkNext(points: seq<PlaceNode>, i: nat, kmlDoc: Parent, address: (ElementRef, string) -> Tags,
                    keysList: seq<string>, ghost all: seq<AddressRecord>, ghost features0: seq<Feature>,
                    ghost obj0: int, ghost sub0: string, dictList: seq<AddressRecord>)
      returns (dictList': seq<AddressRecord>)
      requires i < |points| && keysList == KeysList(tmp.searchPlacesChoice)
      requires all == RecordsOf(points, address, tmp.objectsLanguage, tmp.searchPlacesChoice)
      requires Valid() && IsContainer(kml.features, kmlDoc)
      requires MarkedUpTo(all, i, kmlDoc, features0, obj0, sub0, dictList)
      modifies tmp`currentObj, tmp`currentSubObjName, kml
      ensures Valid() && IsContainer(kml.features, kmlDoc)
      ensures MarkedUpTo(all, i + 1, kmlDoc, features0, obj0, sub0, dictList')
    {
      var record := MarkPlace(i, points[i], kmlDoc, address, keysList);
      RecordsOfIndex(points, address, tmp.objectsLanguage, tmp.searchPlacesChoice, i);
      SliceSnoc(all, i);
      KeptSnoc(all[..i], record);
      LastMarkSnoc(all[..i], record, obj0, sub0);
      dictList' := dictList;
      if HasLocation(record) {
        var mark := PointMark(record.fields["location"], kmlDoc, [LonLat(record.lon, record.lat)]);
        PlacemarksSnoc(kmlDoc, dictList, record);
        SeqAssoc(features0, Placemarks(kmlDoc, dictList), [mark]);
        dictList' := dictList + [record];
        ContainerKept(old(kml.features), [mark], kmlDoc);
      }
    }

    /** `first_nominatim_search`: starts a new document, runs the name-resolver
        search for the request, keeps its candidates, and gives the area id of
        the first one (IndexError when there is none). */
    method FirstNominatimSearch(req: SearchRequest, search: NominatimQuery -> seq<Candidate>)
      returns (r: Result<string, Uncaught>)
      modifies tmp`currentSearchJson, kml
      ensures Valid() && kml.features == []
      ensures tmp.currentSearchJson == search(SearchQuery(tmp.searchType, req.name, tmp.objectsLanguage))
      ensures r == AreaId(tmp.currentSearchJson)
    {
      kml.Clear();
      var query := SearchQuery(tmp.searchType, req.name, tmp.objectsLanguage);
      var js := search(query);
      tmp.currentSearchJson := js;
      r := AreaId(js);
    }

    /** `overpass_search`: asks for the boundary relations of each level of the
        try list in turn and stops at the first level that answers, recording
        its relation count; `tried` is the sequence of levels asked. */
    method OverpassSearch(areaId: string, req: SearchRequest, boundaries: (string, int) -> Option<seq<Relation>>)
      returns (regions: Option<seq<Relation>>, ghost tried: seq<int>)
      modifies tmp`subObjNumber, tmp`currentAreaObjNumber
      ensures var levels := TryList(req.adminLevel, AdminLevelFallback);
              var k := FirstAnswering(areaId, levels, boundaries);
        && regions == OverpassAnswer(areaId, levels, boundaries)
        && (k < |levels| ==>
              tried == levels[..k + 1] && tmp.subObjNumber == |regions.value| && tmp.currentAreaObjNumber == |regions.value|)
        && (k == |levels| ==>
              tried == levels && tmp.subObjNumber == old(tmp.subObjNumber)
              && tmp.currentAreaObjNumber == old(tmp.currentAreaObjNumber))
    {
      var adminLevelTryList := AdminLevelTryListCreator(req.adminLevel, AdminLevelFallback);
      regions, tried := TryLevels(areaId, adminLevelTryList, boundaries);
    }

    /** The loop of `overpass_search` over the levels `levels`. */
    method TryLevels(areaId: string, levels: seq<int>, boundaries: (string, int) -> Option<seq<Relation>>)
      returns (regions: Option<seq<Relation>>, ghost tried: seq<int>)
      modifies tmp`subObjNumber, tmp`currentAreaObjNumber
      ensures var k := FirstAnswering(areaId, levels, boundaries);
        && regions == OverpassAnswer(areaId, levels, boundaries)
        && (k < |levels| ==>
              tried == levels[..k + 1] && tmp.subObjNumber == |regions.value| && tmp.currentAreaObjNumber == |regions.value|)
        && (k == |levels| ==>
              tried == levels && tmp.subObjNumber == old(tmp.subObjNumber)
              && tmp.currentAreaObjNumber == old(tmp.currentAreaObjNumber))
    {
      regions := None;
      tried := [];
      var i := 0;
      while i < |levels|
        invariant 0 <= i <= |levels|
        invariant forall j :: 0 <= j < i ==> boundaries(areaId, levels[j]).None?
        invariant tried == levels[..i] && regions.None?
        invariant tmp.subObjNumber == old(tmp.subObjNumber) && tmp.currentAreaObjNumber == old(tmp.currentAreaObjNumber)
      {
        var level := levels[i];
        SliceSnoc(levels, i);
        tried := tried + [level];
        var answer := boundaries(areaId, level);
        if answer.Some? {
          regions := answer;
          tmp.subObjNumber := |answer.value|;
          tmp.currentAreaObjNumber := tmp.subObjNumber;
          break;
        }
        i := i + 1;
      }
      FirstAnsweringAt(areaId, levels, boundaries, i);
      if i == |levels| {
        assert levels[..i] == levels;
      }
    }

    /** Region `i` of `second_nominatim_search`: its own folder when both
        borders and places are searched, then `regions_search` and
        `locations_search` as the settings ask, then the stage count reset. */
    method ProcessRegion(i: int, region: Relation, sv: Services) returns (abort: Option<Uncaught>)
      requires Valid()
      modifies tmp`currentStage, tmp`currentStageNum, tmp`subObjNumber, tmp`currentObj, tmp`currentAreaObj
      modifies tmp`currentAreaObjName, tmp`currentSubObjName, kml, this`sheets
      ensures Valid()
      ensures var r := RegionStep(RunState(old(kml.features), old(sheets), old(ProgressOf(tmp))),
                                  i, region, SettingsOf(tmp), sv);
        && (r.Failure? ==> abort == Some(r.error) && kml.features == old(kml.features) && sheets == old(sheets)
                           && ProgressOf(tmp) == old(ProgressOf(tmp)))
        && (r.Success? ==> abort.None? && kml.features == r.value.features && sheets == r.value.sheets
                           && ProgressOf(tmp) == r.value.progress)
    {
      var curFolder := Document;
      if tmp.searchBorders && tmp.searchLocations {
        var name := ChooseName(region.tags, tmp.objectsLanguage);
        if name.Failure? {
          return Some(name.error);
        }
        curFolder := kml.NewFolder(Document, name.value);
      }
      RegionContents(i, region, curFolder, sv);
      abort := None;
    }

    /** The contents of region `i` in `curFolder`: its border, then its
        places, then the stage count reset. */
    method RegionContents(i: int, region: Relation, curFolder: Parent, sv: Services)
      requires Valid() && IsContainer(kml.features, curFolder)
      modifies tmp`currentStage, tmp`currentStageNum, tmp`subObjNumber, tmp`currentObj, tmp`currentAreaObj
      modifies tmp`currentAreaObjName, tmp`currentSubObjName, kml, this`sheets
      ensures Valid()
      ensures var s := SettingsOf(tmp);
              var r := PlaceStep(BorderStep(RunState(old(kml.features), old(sheets), old(ProgressOf(tmp))),
                                            i, curFolder, region, s, sv), curFolder, region, s, sv);
        kml.features == r.features && sheets == r.sheets && ProgressOf(tmp) == r.progress.(stageNum := 0)
    {
      ghost var s := SettingsOf(tmp);
      ghost var st := RunState(kml.features, sheets, ProgressOf(tmp));
      RegionBorders(i, region, curFolder, sv);
      ghost var b := BorderStep(st, i, curFolder, region, s, sv);
      assert RunState(kml.features, sheets, ProgressOf(tmp)) == b;
      RegionPlaces(i, region, curFolder, sv);
      ResetStageNum();
    }

    /** `current_stage_num = 0`. */
    method ResetStageNum()
      modifies tmp`currentStageNum
      ensures ProgressOf(tmp) == old(ProgressOf(tmp)).(stageNum := 0)
    {
      tmp.currentStageNum := 0;
    }

    /** `regions_search` for region `i` when borders are searched. */
    method RegionBorders(i: int, region: Relation, curFolder: Parent, sv: Services)
      requires Valid() && IsContainer(kml.features, curFolder)
      modifies tmp`currentStage, tmp`currentStageNum, tmp`currentObj, tmp`currentAreaObj
      modifies tmp`currentAreaObjName, tmp`currentSubObjName, kml
      ensures Valid() && IsContainer(kml.features, curFolder)
      ensures var r := BorderStep(RunState(old(kml.features), sheets, old(ProgressOf(tmp))), i, curFolder, region,
                                  SettingsOf(tmp), sv);
        kml.features == r.features && ProgressOf(tmp) == r.progress
    {
      if tmp.searchBorders {
        ghost var before := kml.features;
        RegionsSearch(i, region, curFolder, sv.geometry);
        ContainerKept(before, kml.features[|before|..], curFolder);
        assert before + kml.features[|before|..] == kml.features;
      }
    }

    /** `locations_search` for a region when places are searched. */
    method RegionPlaces(i: int, region: Relation, curFolder: Parent, sv: Services)
      requires Valid() && IsContainer(kml.features, curFolder)
      modifies tmp`currentStage, tmp`currentStageNum, tmp`subObjNumber, tmp`currentObj, tmp`currentSubObjName
      modifies kml, this`sheets
      ensures Valid()
      ensures var r := PlaceStep(RunState(old(kml.features), old(sheets), old(ProgressOf(tmp))), curFolder, region,
                                 SettingsOf(tmp), sv);
        kml.features == r.features && sheets == r.sheets && ProgressOf(tmp) == r.progress
    {
      ghost var p0 := ProgressOf(tmp);
      if tmp.searchLocations {
        LocationsSearch(i, region, curFolder, sv.places, sv.address);
        assert ProgressOf(tmp) == p0.(stage := tmp.currentStage, stageNum := tmp.currentStageNum,
                                      subObjNumber := tmp.subObjNumber, obj := tmp.currentObj,
                                      subName := tmp.currentSubObjName);
      }
    }

    /** The writer `second_nominatim_search` opens when places are searched and
        spreadsheets exported: named after the current object, with no sheets yet. */
    method OpenWriter()
      modifies this`hasWriter, this`writerFile, this`sheets
      ensures var newWriter := tmp.searchLocations && tmp.exportToExcel;
        && hasWriter == (old(hasWriter) || newWriter)
        && writerFile == (if newWriter then tmp.currentObjName else old(writerFile))
        && sheets == (if newWriter then [] else old(sheets))
    {
      if tmp.searchLocations && tmp.exportToExcel {
        hasWriter := true;
        writerFile := tmp.currentObjName;
        sheets := [];
      }
    }

    /** The loop over the relations of `second_nominatim_search`. On an error
        the document, sheets and progress stay as the regions before left them. */
    method RegionLoop(rels: seq<Relation>, sv: Services) returns (abort: Option<Uncaught>)
      requires Valid()
      modifies tmp`currentStage, tmp`currentStageNum, tmp`subObjNumber, tmp`currentObj, tmp`currentAreaObj
      modifies tmp`currentAreaObjName, tmp`currentSubObjName, kml, this`sheets
      ensures Valid()
      ensures var out := RunRegions(RunState(old(kml.features), old(sheets), old(ProgressOf(tmp))),
                                    rels, 0, SettingsOf(tmp), sv);
        && abort == out.error
        && kml.features == out.state.features && sheets == out.state.sheets && ProgressOf(tmp) == out.state.progress
    {
      ghost var s := SettingsOf(tmp);
      ghost var out := RunRegions(RunState(kml.features, sheets, ProgressOf(tmp)), rels, 0, s, sv);
      for i := 0 to |rels|
        invariant Valid() && SettingsOf(tmp) == s
        invariant RunRegions(RunState(kml.features, sheets, ProgressOf(tmp)), rels, i, s, sv) == out
      {
        ghost var st := RunState(kml.features, sheets, ProgressOf(tmp));
        var a := ProcessRegion(i, rels[i], sv);
        if a.Some? {
          return a;
        }
        assert RunRegions(st, rels, i, s, sv) == RunRegions(RunState(kml.features, sheets, ProgressOf(tmp)), rels, i + 1, s, sv);
      }
      abort := None;
    }

    /** `second_nominatim_search`: opens the spreadsheet writer when places are
        exported, then handles the regions in order. Without a relation list
        (the TypeError of the original) it records the error and resets the
        stage count instead; a region without a usable name stops the whole
        run with its KeyError. */
    method SecondNominatimSearch(overpassRegions: Option<seq<Relation>>, sv: Services) returns (abort: Option<Uncaught>)
      requires Valid()
      modifies tmp`currentStage, tmp`currentStageNum, tmp`subObjNumber, tmp`currentObj, tmp`currentAreaObj
      modifies tmp`currentAreaObjName, tmp`currentSubObjName, tmp`errorFound, kml
      modifies this`hasWriter, this`writerFile, this`sheets
      ensures Valid()
      ensures var newWriter := tmp.searchLocations && tmp.exportToExcel;
        && hasWriter == (old(hasWriter) || newWriter)
        && writerFile == (if newWriter then tmp.currentObjName else old(writerFile))
      ensures var sheets1 := if tmp.searchLocations && tmp.exportToExcel then [] else old(sheets);
        && (overpassRegions.None? ==>
              && abort.None? && tmp.errorFound == 1
              && kml.features == old(kml.features) && sheets == sheets1
              && ProgressOf(tmp) == old(ProgressOf(tmp)).(stageNum := 0))
        && (overpassRegions.Some? ==>
              var out := RunRegions(RunState(old(kml.features), sheets1, old(ProgressOf(tmp))),
                                    overpassRegions.value, 0, SettingsOf(tmp), sv);
              && tmp.errorFound == old(tmp.errorFound) && abort == out.error
              && kml.features == out.state.features && sheets == out.state.sheets
              && ProgressOf(tmp) == out.state.progress)
    {
      OpenWriter();
      match overpassRegions {
        case None =>
          tmp.currentStageNum := 0;
          tmp.errorFound := 1;
          abort := None;
        case Some(rels) =>
          abort := RegionLoop(rels, sv);
      }
    }

    /** What the three searches of `req` leave, from the sheets, progress and
        writer before them. The candidates are kept. Without candidates the
        document is emptied and nothing else changes. Otherwise the writer is
        opened as the settings ask. Without a relation list the document is
        emptied and the stage count reset. With one, both relation counters
        are set to its length and the region loop runs from an emptied
        document. `searched` is the error the searches stop with. */
    ghost predicate Searched(req: SearchRequest, sv: Services, sheets0: seq<Sheet>, p0: Progress,
                             hasWriter0: bool, writerFile0: string, searched: Option<Uncaught>)
      reads this`sheets, this`hasWriter, this`writerFile, kml, tmp
    {
      var found := Answer(req, sv, tmp.searchType, tmp.objectsLanguage);
      var newWriter := tmp.searchLocations && tmp.exportToExcel;
      var sheets1 := if newWriter then [] else sheets0;
      && tmp.currentSearchJson == sv.search(SearchQuery(tmp.searchType, req.name, tmp.objectsLanguage))
      && (found.Failure? ==>
            && searched == Some(found.error) && kml.features == [] && sheets == sheets0 && ProgressOf(tmp) == p0
            && hasWriter == hasWriter0 && writerFile == writerFile0)
      && (found.Success? ==>
            && hasWriter == (hasWriter0 || newWriter)
            && writerFile == (if newWriter then tmp.currentObjName else writerFile0))
      && (found.Success? && found.value.None? ==>
            searched.None? && kml.features == [] && sheets == sheets1 && ProgressOf(tmp) == p0.(stageNum := 0))
      && (found.Success? && found.value.Some? ==>
            var rels := found.value.value;
            var out := RunRegions(RunState([], sheets1, p0.(subObjNumber := |rels|, areaObjNumber := |rels|)),
                                  rels, 0, SettingsOf(tmp), sv);
            && searched == out.error
            && kml.features == out.state.features && sheets == out.state.sheets && ProgressOf(tmp) == out.state.progress)
    }

    /** What one request of `request_and_proccess_data` leaves: the searches
        as `Searched` says, then, unless they stopped, the saving. A request
        whose error flag was set before, or that found no relation list, saves
        nothing and clears the flag. Otherwise a spreadsheet export without a
        writer stops with the AttributeError, and anything else saves exactly
        `Saved` of the document and sheets the searches left. */
    ghost predicate Handled(req: SearchRequest, sv: Services, sheets0: seq<Sheet>, p0: Progress,
                            hasWriter0: bool, writerFile0: string, errorFound0: int,
                            searched: Option<Uncaught>, abort: Option<Uncaught>, saved: seq<ExportedFile>)
      reads this`sheets, this`hasWriter, this`writerFile, kml, tmp
    {
      var found := Answer(req, sv, tmp.searchType, tmp.objectsLanguage);
      var flagged := errorFound0 != 0 || (found.Success? && found.value.None?);
      var noWriter := tmp.exportToExcel && !hasWriter;
      && Searched(req, sv, sheets0, p0, hasWriter0, writerFile0, searched)
      && (searched.Some? ==> abort == searched && saved == [] && tmp.errorFound == errorFound0)
      && (searched.None? ==> tmp.errorFound == 0)
      && (searched.None? && flagged ==> abort.None? && saved == [])
      && (searched.None? && !flagged && noWriter ==> abort == Some(AttributeError(WriterAttribute)) && saved == [])
      && (searched.None? && !flagged && !noWriter ==>
            && abort.None?
            && saved == Saved(req.name, tmp.exportToExcel, tmp.exportToKml, tmp.polygonsToLines,
                              writerFile, sheets, kml.features))
    }

    /** One request of `request_and_proccess_data`: the three searches, then,
        when no error was recorded, the spreadsheet and the overlay map saved as
        the settings ask; otherwise the error flag is cleared. */
    method ProcessRequest(req: SearchRequest, sv: Services)
      returns (abort: Option<Uncaught>, ghost searched: Option<Uncaught>, ghost saved: seq<ExportedFile>)
      modifies tmp`currentStage, tmp`currentStageNum, tmp`subObjNumber, tmp`currentAreaObjNumber, tmp`currentObj
      modifies tmp`currentAreaObj, tmp`currentAreaObjName, tmp`currentSubObjName, tmp`currentSearchJson, tmp`errorFound
      modifies kml, this`hasWriter, this`writerFile, this`sheets, this`exports
      ensures Valid()
      ensures exports == old(exports) + saved
      ensures Handled(req, sv, old(sheets), old(ProgressOf(tmp)), old(hasWriter), old(writerFile), old(tmp.errorFound),
                      searched, abort, saved)
    {
      saved := [];
      abort := RunSearches(req, sv);
      searched := abort;
      if abort.Some? {
        return;
      }
      abort, saved := SaveOrReset(req.name);
    }

    /** The three searches of a request: the name resolver, the boundary
        query over the level try list, and the regions found, as `Searched`
        says. Without a relation list the error flag is set; the only error a
        region raises is the KeyError of a missing name. */
    method RunSearches(req: SearchRequest, sv: Services) returns (abort: Option<Uncaught>)
      modifies tmp`currentStage, tmp`currentStageNum, tmp`subObjNumber, tmp`currentAreaObjNumber, tmp`currentObj
      modifies tmp`currentAreaObj, tmp`currentAreaObjName, tmp`currentSubObjName, tmp`currentSearchJson, tmp`errorFound
      modifies kml, this`hasWriter, this`writerFile, this`sheets
      ensures Valid()
      ensures Searched(req, sv, old(sheets), old(ProgressOf(tmp)), old(hasWriter), old(writerFile), abort)
      ensures var found := Answer(req, sv, tmp.searchType, tmp.objectsLanguage);
        && (found.Failure? ==> tmp.errorFound == old(tmp.errorFound))
        && (found.Success? && found.value.None? ==> tmp.errorFound == 1)
        && (found.Success? && found.value.Some? ==>
              tmp.errorFound == old(tmp.errorFound) && (abort.None? || abort == Some(KeyError("name"))))
    {
      var found := FindRegions(req, sv);
      if found.Failure? {
        return Some(found.error);
      }
      var overpRegions := found.value;
      abort := SecondNominatimSearch(overpRegions, sv);
      if overpRegions.Some? {
        var rels := overpRegions.value;
        RunRegionsFails(RunState([], if tmp.searchLocations && tmp.exportToExcel then [] else old(sheets),
                                 old(ProgressOf(tmp)).(subObjNumber := |rels|, areaObjNumber := |rels|)),
                        rels, 0, SettingsOf(tmp), sv);
      }
    }

    /** The first two searches of a request, on a cleared document: the
        relation list of the first level that answers in the first candidate's
        area, or the IndexError of a resolver without candidates. The
        candidates are kept, and a relation list found sets both relation
        counters to its length. */
    method FindRegions(req: SearchRequest, sv: Services) returns (found: Result<Option<seq<Relation>>, Uncaught>)
      modifies tmp`subObjNumber, tmp`currentAreaObjNumber, tmp`currentSearchJson, kml
      ensures Valid() && kml.features == []
      ensures found == Answer(req, sv, tmp.searchType, tmp.objectsLanguage)
      ensures tmp.currentSearchJson == sv.search(SearchQuery(tmp.searchType, req.name, tmp.objectsLanguage))
      ensures ProgressOf(tmp) ==
                if found.Success? && found.value.Some?
                then old(ProgressOf(tmp)).(subObjNumber := |found.value.value|, areaObjNumber := |found.value.value|)
                else old(ProgressOf(tmp))
    {
      var osmAreaId := FirstNominatimSearch(req, sv.search);
      if osmAreaId.Failure? {
        return Failure(osmAreaId.error);
      }
      var overpRegions, tried := OverpassSearch(osmAreaId.value, req, sv.boundaries);
      found := Success(overpRegions);
    }

    /** The end of a request: with no error recorded, the spreadsheet (closing
        a writer that was never opened is the AttributeError of the original)
        and then the overlay map are saved as the settings ask; otherwise the
        error flag is cleared. */
    method SaveOrReset(name: string) returns (abort: Option<Uncaught>, ghost saved: seq<ExportedFile>)
      modifies tmp`errorFound, this`exports
      ensures tmp.errorFound == 0
      ensures exports == old(exports) + saved
      ensures saved == [] || saved == Saved(name, tmp.exportToExcel, tmp.exportToKml, tmp.polygonsToLines,
                                            writerFile, sheets, kml.features)
      ensures old(tmp.errorFound) != 0 ==> abort.None? && exports == old(exports)
      ensures old(tmp.errorFound) == 0 && tmp.exportToExcel && !hasWriter ==>
                abort == Some(AttributeError(WriterAttribute)) && exports == old(exports)
      ensures old(tmp.errorFound) == 0 && !(tmp.exportToExcel && !hasWriter) ==>
                abort.None? && exports == old(exports) + Saved(name, tmp.exportToExcel, tmp.exportToKml, tmp.polygonsToLines,
                                                                 writerFile, sheets, kml.features)
    {
      abort := None;
      saved := [];
      if tmp.errorFound == 0 {
        var files: seq<ExportedFile> := [];
        if tmp.exportToExcel {
          if !hasWriter {
            return Some(AttributeError(WriterAttribute)), saved;
          }
          files := files + [ExcelFile(writerFile, sheets)];
        }
        if tmp.exportToKml {
          files := files + [KmlFile(KmlFileName(name, tmp.polygonsToLines), kml.features)];
        }
        exports := exports + files;
        saved := files;
      } else {
        tmp.errorFound := 0;
      }
    }

    /** One pass of the request loop: a request of the search line, handled
        as `ProcessRequest` does, so that whatever it saves is named after one
        of the requests. */
    method ProcessListed(req: SearchRequest, reqs: seq<SearchRequest>, sv: Services)
      returns (abort: Option<Uncaught>, ghost searched: Option<Uncaught>, ghost saved: seq<ExportedFile>)
      requires req in reqs
      modifies tmp`currentStage, tmp`currentStageNum, tmp`subObjNumber, tmp`currentAreaObjNumber, tmp`currentObj
      modifies tmp`currentAreaObj, tmp`currentAreaObjName, tmp`currentSubObjName, tmp`currentSearchJson, tmp`errorFound
      modifies kml, this`hasWriter, this`writerFile, this`sheets, this`exports
      ensures Handled(req, sv, old(sheets), old(ProgressOf(tmp)), old(hasWriter), old(writerFile), old(tmp.errorFound),
                      searched, abort, saved)
      ensures exports == old(exports) + saved && |saved| <= 2
      ensures FilesNamed(saved, RequestFileNames(reqs, tmp.polygonsToLines))
      ensures abort.None? ==> tmp.errorFound == 0
    {
      abort, searched, saved := ProcessRequest(req, sv);
      SavedNamed(req, reqs, saved, tmp.exportToExcel, tmp.exportToKml, tmp.polygonsToLines, writerFile, sheets, kml.features);
    }

    /** One pass of the request loop, adding what it saves to the files
        `written` since `exports0`. */
    method RequestPass(req: SearchRequest, reqs: seq<SearchRequest>, sv: Services,
                       ghost exports0: seq<ExportedFile>, ghost written: seq<ExportedFile>)
      returns (abort: Option<Uncaught>, ghost written': seq<ExportedFile>)
      requires req in reqs
      requires exports == exports0 + written && FilesNamed(written, RequestFileNames(reqs, tmp.polygonsToLines))
      modifies tmp`currentStage, tmp`currentStageNum, tmp`subObjNumber, tmp`currentAreaObjNumber, tmp`currentObj
      modifies tmp`currentAreaObj, tmp`currentAreaObjName, tmp`currentSubObjName, tmp`currentSearchJson, tmp`errorFound
      modifies kml, this`hasWriter, this`writerFile, this`sheets, this`exports
      ensures exports == exports0 + written' && |written'| <= |written| + 2
      ensures FilesNamed(written', RequestFileNames(reqs, tmp.polygonsToLines))
      ensures abort.None? ==> tmp.errorFound == 0
    {
      var a, searched, saved := ProcessListed(req, reqs, sv);
      abort := a;
      FilesNamedAppend(written, saved, RequestFileNames(reqs, tmp.polygonsToLines));
      SeqAssoc(exports0, written, saved);
      written' := written + saved;
    }

    /** `request_and_proccess_data`: every request of the search line in order,
        stopping at the first uncaught error. `flags` records the error flag as
        each request starts, and `written` the files saved. */
    method RequestAndProcessData(sv: Services)
      returns (outcome: Option<Uncaught>, ghost flags: seq<int>, ghost written: seq<ExportedFile>)
      modifies tmp`currentStage, tmp`currentStageNum, tmp`subObjNumber, tmp`currentAreaObjNumber, tmp`currentObj
      modifies tmp`currentAreaObj, tmp`currentAreaObjName, tmp`currentSubObjName, tmp`currentSearchJson, tmp`errorFound
      modifies kml, this`hasWriter, this`writerFile, this`sheets, this`exports
      ensures exports == old(exports) + written
      ensures var parsed := ParseSearchLine(tmp.searchLine);
        && (parsed.Failure? ==> outcome == Some(parsed.error) && written == [] && flags == [])
        && (parsed.Success? ==>
              && |flags| <= |parsed.value|
              && (outcome.None? ==> |flags| == |parsed.value|)
              && |written| <= 2 * |flags|
              && FilesNamed(written, RequestFileNames(parsed.value, tmp.polygonsToLines)))
      ensures forall k :: 0 < k < |flags| ==> flags[k] == 0
    {
      var searchList := SearchLineProcessing();
      if searchList.Failure? {
        return Some(searchList.error), [], [];
      }
      outcome, flags, written := ProcessRequests(searchList.value, sv);
    }

    /** The request loop of `request_and_proccess_data`. */
    method ProcessRequests(reqs: seq<SearchRequest>, sv: Services)
      returns (outcome: Option<Uncaught>, ghost flags: seq<int>, ghost written: seq<ExportedFile>)
      modifies tmp`currentStage, tmp`currentStageNum, tmp`subObjNumber, tmp`currentAreaObjNumber, tmp`currentObj
      modifies tmp`currentAreaObj, tmp`currentAreaObjName, tmp`currentSubObjName, tmp`currentSearchJson, tmp`errorFound
      modifies kml, this`hasWriter, this`writerFile, this`sheets, this`exports
      ensures exports == old(exports) + written
      ensures |flags| <= |reqs| && (outcome.None? ==> |flags| == |reqs|)
      ensures |written| <= 2 * |flags| && FilesNamed(written, RequestFileNames(reqs, tmp.polygonsToLines))
      ensures forall k :: 0 < k < |flags| ==> flags[k] == 0
    {
      flags := [];
      written := [];
      ghost var names := RequestFileNames(reqs, tmp.polygonsToLines);
      assert old(exports) + written == exports;
      for i := 0 to |reqs|
        invariant |flags| == i && forall k :: 0 < k < i ==> flags[k] == 0
        invariant i > 0 ==> tmp.errorFound == 0
        invariant exports == old(exports) + written && |written| <= 2 * i && FilesNamed(written, names)
      {
        flags := flags + [tmp.errorFound];
        var abort;
        abort, written := RequestPass(reqs[i], reqs, sv, old(exports), written);
        if abort.Some? {
          return abort, flags, written;
        }
      }
      outcome := None;
    }
  }

  /** The points query of `locations_search`: one place selector per place
      type, in order, inside the area. */
  method BuildPointsQuery(areaId: int, choices: seq<string>) returns (baseReqLine: string)
    ensures baseReqLine == PointsQuery(areaId, choices)
  {
    var pointsSearchLine := "";
    for c := 0 to |choices|
      invariant pointsSearchLine == PlaceSelectors(choices[..c])
    {
      assert choices[..c + 1][..c] == choices[..c];
      pointsSearchLine := pointsSearchLine + " nwr[place='" + choices[c] + "'](area.a1);";
    }
    assert choices[..|choices|] == choices;
    baseReqLine := "area(" + IntToString(areaId) + ")->.a1; (" + pointsSearchLine + ");out body;";
  }

  /** The fields of one address (`adr_mod`): keys looked at in order, a place
      type setting `location`, any other key copied, an absent key skipped. */
  method CollectAddress(adr: Tags, choices: seq<string>, keysList: seq<string>) returns (adrMod: map<string, string>)
    ensures adrMod == AddressFields(adr, choices, keysList)
  {
    adrMod := map[];
    for j := 0 to |keysList|
      invariant adrMod == AddressFields(adr, choices, keysList[..j])
    {
      var x := keysList[j];
      assert keysList[..j + 1][..j] == keysList[..j];
      if x in adr {
        if x in choices {
          adrMod := adrMod["location" := adr[x]];
        } else {
          adrMod := adrMod[x := adr[x]];
        }
      }
    }
    assert keysList[..|keysList|] == keysList;
  }

  /** After `a`, after `b`: after `a + b`. */
  lemma AfterAfter(a: seq<SearchRequest>, b: seq<SearchRequest>, r: Result<seq<SearchRequest>, Uncaught>)
    ensures After(a, After(b, r)) == After(a + b, r)
  {
    if r.Success? {
      assert a + (b + r.value) == (a + b) + r.value;
    }
  }

  lemma AfterNothing(r: Result<seq<SearchRequest>, Uncaught>)
    ensures After([], r) == r
  {
    if r.Success? {
      assert [] + r.value == r.value;
    }
  }

  lemma FirstIndexFound(s: string, c: char)
    requires c in s
    ensures FirstIndex(s, c) < |s|
  {
  }

  lemma PlacemarksSnoc(parent: Parent, records: seq<AddressRecord>, r: AddressRecord)
    requires forall q :: q in records ==> HasLocation(q)
    requires HasLocation(r)
    ensures Placemarks(parent, records + [r])
         == Placemarks(parent, records) + [PointMark(r.fields["location"], parent, [LonLat(r.lon, r.lat)])]
  {
    assert (records + [r])[..|records|] == records;
  }
}
