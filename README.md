# earth-crawler search pipeline, in Dafny

earth-crawler turns a search line such as `USA=5; China=6` into overlay maps
(KML) and spreadsheets. The maps hold the borders and populated places of
administrative regions, taken from OpenStreetMap. For each requested name:

1. The name resolver (Nominatim) finds the area.
2. A spatial query (Overpass) finds the boundary relations of a
   requested administrative level. It falls back through a fixed list of
   levels.
3. For each relation, the crawler draws its border from the well-known text
   geometry and adds a point per populated place. It also collects the places'
   addresses into a sheet.
4. The document and the spreadsheet are saved as the settings ask.

This project models the deterministic part of that pipeline:

- the `EarthCrawler` class of earth_crawler.py;
- the colour normaliser `TempData.get_color` of tempdata.py.

It proves what the code promises about that model.

Modules (one file each):

- `Results` (results.dfy): `Option` and `Result`.
- `Seqs` (seqs.dfy): two sequence facts used by the proofs.
- `Text` (text.dfy): the pieces of Python string behaviour the crawler
  relies on:
  - `split` on one character;
  - `strip()` with Python's whitespace set;
  - `str(int)` and base-10 `int(str)`, with sign, surrounding blanks and
    digit-group underscores;
  - ASCII `lower()`.
- `Osm` (osm.dfy): the values the services hand back: candidates, relations
  with tags and area number, place nodes, element references and parsed
  geometries.
- `Kml` (kml.dfy): the overlay-map document as a class. It holds a flat
  list of features in creation order. Each feature names its container: the
  document or an earlier folder. The document is only ever appended to, and
  it stays a well-formed tree.
- `Tempdata` (tempdata.dfy):
  - the `TempData` settings-and-progress store, as a class whose fields
    the crawler updates in place;
  - `GetColor`, with the colour-name table as a parameter.
- `SearchRules` (search_rules.dfy): the rules of the pipeline as functions,
  and lemmas about them:
  - the level try list and the level fallback;
  - search-line parsing and its round trip;
  - name choice, the area id and the KML file name;
  - address records and which of them are kept;
  - the shapes a geometry adds.
- `Crawler` (crawler.dfy): the `EarthCrawler` class. Its methods keep the
  source's loops and in-place updates, and each is proved against the
  functions of `SearchRules`. The per-region loop and the request loop are
  also specified by functions (`RegionStep`, `RunRegions`, `Answer`,
  `Saved`), with lemmas about when they fail and what they append. The
  state a region leaves includes the progress fields the interface shows
  (`Progress`). Two predicates, `Searched` and `Handled`, state everything
  one request leaves: document, sheets, progress, writer, error flag and
  saved files.

The network services are a `Services` value of function-typed parameters:

- the candidate search;
- the boundary query per area and level;
- the geometry of an element;
- the place query;
- the address of an element in a language.

An uncaught Python exception is a value of `Uncaught`. The batch stops on
it: `ValueError` from `int()`, `IndexError` when there is no candidate,
`KeyError` for a region without a name tag, and `AttributeError` when the
spreadsheet writer was never created.

Where the code behaves in a way a reader may not expect, the model follows
the code:

- The English fallback key of `choose_name_from_tag` is spelt `neme:en` in
  the code, at earth_crawler.py:110-111. The model keeps that spelling, and
  tests/test_earth_crawler.py:41-43 depends on it. So a `name:en` tag is
  never consulted unless English is the preferred language
  (`EnglishTagIgnored`).
- A segment's level is the text between the first and the second `=`. Later
  text is ignored. The name is not stripped again.
- The level fallback accepts the first level whose answer has a relation
  list, even an empty one. Only a missing list (the `TypeError` of `len`)
  moves on to the next level.
- A missing name, the empty candidate list and the missing spreadsheet
  writer are exceptions that end the whole batch. They are not errors
  recorded for one request.
- An absent `name:<language>` tag used as the area name is the text `None`,
  since Python writes `None` into the string.

## Model

| member | source | states |
|---|---|---|
| Crawler.EarthCrawler.AdminLevelTryListCreator | earth_crawler.py:52-56 | the loop builds `TryList`: the requested level, then the given levels without it, in their order |
| SearchRules.TryListShape | earth_crawler.py:52-56 | the try list starts with the target, holds it exactly once, holds every other level as often as the given list does, and after the first place is the given list with the target removed |
| SearchRules.WithoutAppend | earth_crawler.py:53-55 | removing a level distributes over concatenation, so the remaining levels keep their order |
| SearchRules.WithoutSnoc | earth_crawler.py:53-55 | one more given level is appended exactly when it differs from the target |
| SearchRules.WithoutAbsent | earth_crawler.py:53-55 | removing a level that does not occur changes nothing |
| SearchRules.WithoutCounts | earth_crawler.py:53-55 | every level other than the target keeps its number of occurrences |
| SearchRules.WithoutDistinct | earth_crawler.py:53-55 | removing a level from distinct levels leaves distinct levels |
| SearchRules.TryListDistinct | earth_crawler.py:52-56 | distinct given levels give a try list without repeats |
| SearchRules.FallbackTryListDistinct | earth_crawler.py:334-335 | with the fixed fallback list, no level is in the try list twice, whatever level is requested |
| SearchRules.TryListThirdFirst | earth_crawler.py:52-56 | a target in third place moves to the front and the other levels keep their order |
| SearchRules.FallbackSplit | earth_crawler.py:335 | the fallback list is `[4,5,6,7,8,9,10,3]` |
| SearchRules.TryListExample | tests/test_earth_crawler.py:24-25 | `(6, [4,5,6,7,8,9,10,3])` gives `[6,4,5,7,8,9,10,3]` |
| SearchRules.WithoutCons | earth_crawler.py:53-55 | one removal step on a sequence written as head and tail |
| Crawler.EarthCrawler.SearchLineProcessing | earth_crawler.py:176-187 | the loop returns `ParseSearchLine` of the search line: the requests of the non-blank stripped segments in order, or the ValueError of the first segment whose level is not an integer |
| Crawler.EarthCrawler.ReadSegment | earth_crawler.py:181-185 | one stripped non-blank segment is read as `ParseSegment` reads it |
| SearchRules.ParseSegment | earth_crawler.py:181-185 | without `=`: the segment with level 4; with `=`: the text before the first `=` as name and `int()` of the text between the first and the second `=` as level, and a ValueError carrying that text when it is not an integer |
| SearchRules.NonBlank | earth_crawler.py:178-180 | the stripped non-blank segments are never more than the segments |
| SearchRules.ParseSegmentsStep | earth_crawler.py:178-186 | one step of the parse: a blank segment is skipped, a failing one ends the parse with its error, a parsing one puts its request in front |
| SearchRules.ParseSegmentsCharacterised | earth_crawler.py:177-187 | the parse succeeds exactly when every non-blank segment parses, and then gives one request per non-blank segment, in order |
| SearchRules.ParseSearchLineCharacterised | earth_crawler.py:177-187 | the same for a search line, whose non-blank segments hold no `;` and are never more than the pieces of the split |
| SearchRules.ParseRenderedRequest | earth_crawler.py:179-185 | a request written as `name=level` is already stripped, holds no `;`, and parses back to itself |
| SearchRules.ParseRenderRoundTrip | earth_crawler.py:177-187 | writing requests out as `name=level;...` and parsing the line gives back the same requests |
| SearchRules.NonBlankFrom | earth_crawler.py:177-180 | a character absent from every segment is absent from the stripped ones |
| SearchRules.ParseSearchLineExample | tests/test_earth_crawler.py:29-31 | `"USA=5; China=6; Russia=4"` gives `[("USA",5), ("China",6), ("Russia",4)]` |
| Text.Strip | earth_crawler.py:179 | `strip()` removes exactly the leading and the trailing whitespace, and what remains starts and ends with non-whitespace |
| Text.StripKeeps | earth_crawler.py:179 | a string that starts and ends with non-whitespace is its own strip |
| Text.StripEmptyIffBlank | earth_crawler.py:179-180 | the strip is empty exactly when the segment is all whitespace |
| Text.Split | earth_crawler.py:177 | `split` gives at least one piece, and no piece holds the separator |
| Text.JoinSplit | earth_crawler.py:177 | joining the pieces of a split with the separator gives back the string |
| Text.SplitJoin | earth_crawler.py:177 | splitting a join of separator-free pieces gives back the pieces |
| Text.SplitAtFirst | earth_crawler.py:182-183 | the first piece is the text before the first separator, and the other pieces are those of the text after it |
| Text.ParseIntToString | earth_crawler.py:183 | `int(str(i)) == i` |
| Text.IntToStringInjective | earth_crawler.py:315 | different numbers have different decimal texts |
| SearchRules.ChooseName | earth_crawler.py:107-113 | the name is the `name:<language>` tag, else the `neme:en` tag, else the `name` tag, so always one of the tag values; it is a KeyError exactly when none of the three is present |
| SearchRules.ChooseNamePreferredWins | earth_crawler.py:107-109 | a `name:<language>` tag decides the name, whatever the other tags are |
| SearchRules.EnglishTagIgnored | earth_crawler.py:110-111 | for a language other than English, removing the `name:en` tag never changes the chosen name |
| SearchRules.ChooseNameExamples | tests/test_earth_crawler.py:34-43 | for the test's tags, `de` gives `De_name` and the empty language gives `Int_name` |
| SearchRules.TagOrNone | earth_crawler.py:202-205 | a present tag gives its value, an absent one the text `None` |
| Kml.KmlDocument.constructor | earth_crawler.py:294 | a new document is empty and well formed |
| Kml.KmlDocument.Clear | earth_crawler.py:294 | starting a new document leaves it empty |
| Kml.KmlDocument.NewFolder | earth_crawler.py:129-130 | `newfolder` appends one folder in an existing container and hands back that folder as a container |
| Kml.KmlDocument.NewPolygon | earth_crawler.py:86-87 | `newpolygon` appends one named polygon in an existing container |
| Kml.KmlDocument.NewLineString | earth_crawler.py:91-92 | `newlinestring` appends one named line string in an existing container |
| Kml.KmlDocument.NewPoint | earth_crawler.py:263-264 | `newpoint` appends one named point in an existing container |
| Kml.AppendWellFormed | earth_crawler.py:85-93 | appending a feature whose container exists keeps the document a tree |
| Kml.ContainerKept | earth_crawler.py:129-136 | a container stays a container as features are appended |
| Kml.ChildrenOf | earth_crawler.py:129-136 | the children of a container are features of the document placed in it |
| Kml.ChildrenOfAppend | earth_crawler.py:131-136 | the children of a container are collected in order across appended features |
| Crawler.EarthCrawler.AddKmlObject | earth_crawler.py:85-93 | appends a polygon when the types include `Polygon` and polygons are kept, then a line string when the types include `Line` or polygons become lines, and nothing else |
| SearchRules.PolygonTypeOneShape | earth_crawler.py:85-93 | the types `['Polygon']` give exactly one shape: a polygon, or a line string when polygons become lines |
| Crawler.EarthCrawler.ProcessLoadedWkt | earth_crawler.py:127-140 | appends exactly the `WktFeatures` of the geometry, named after the current sub-object |
| Crawler.EarthCrawler.AddPolygonParts | earth_crawler.py:131-136 | the loop over the parts of a multi-polygon appends one shape per part in the folder, in part order, named `<name>_1`, `<name>_2`, ... |
| SearchRules.PartShapes | earth_crawler.py:131-136 | one shape per part, each in the multi-polygon's folder |
| SearchRules.PartShapesSnoc | earth_crawler.py:131-136 | the part shapes grow by one shape per loop pass |
| SearchRules.PartShapesIndex | earth_crawler.py:131-136 | part shape `i` is the ring of polygon `i`, named with number `i + 1` |
| SearchRules.PartNamesDistinct | earth_crawler.py:133 | different parts get different names |
| SearchRules.WktFeaturesLayout | earth_crawler.py:127-140 | a multi-polygon with N parts adds its folder and then N ring shapes in part order; a polygon adds one ring shape named after the object; any other geometry adds nothing |
| SearchRules.NoChildrenOfLaterFolder | earth_crawler.py:129-130 | a folder made now has no children among the features before it |
| SearchRules.ChildrenOfOwnFolder | earth_crawler.py:131-136 | every part shape sits in the multi-polygon's folder |
| SearchRules.MultiPolygonFolderContents | earth_crawler.py:127-136 | in a well-formed document, the new folder of a multi-polygon holds exactly its part shapes, in part order |
| SearchRules.WktShapeContainer | earth_crawler.py:127-140 | each shape a geometry adds sits in the given container or in the folder it added first |
| SearchRules.WktFeaturesWellFormed | earth_crawler.py:127-140 | the shapes of a geometry keep the document a tree |
| Crawler.EarthCrawler.RegionsSearch | earth_crawler.py:198-211 | sets the stage, the counters and the area and sub-object names from the region's `name:<language>` tag, then appends the shapes of the region's geometry |
| SearchRules.ElementPath | earth_crawler.py:207 | the text `<type>/<id>` naming an element is longer than one character and holds a `/` |
| SearchRules.ElementPathInjective | earth_crawler.py:245 | different elements get different `<type>/<id>` texts, so looking up by text and by element are the same |
| Crawler.EarthCrawler.LocationsSearch | earth_crawler.py:224-279 | sets the stage and the place count, appends one point per kept record in point order, writes the kept records as a sheet named after the current area when spreadsheets are exported, and leaves the progress at the last kept record |
| Crawler.EarthCrawler.FetchPoints | earth_crawler.py:224-241 | the place query of the region's area gives the points, and their number is recorded |
| Crawler.BuildPointsQuery | earth_crawler.py:235-239 | builds the place query text: one selector per place type, in order, inside the area |
| Crawler.EarthCrawler.MarkAndWrite | earth_crawler.py:242-279 | the points loop, then one sheet of the kept records when spreadsheets are exported |
| Crawler.EarthCrawler.MarkPlaces | earth_crawler.py:242-272 | the loop keeps exactly the records with a location, in point order, adds their points, and leaves the progress at the last kept one |
| Crawler.EarthCrawler.MarkNext | earth_crawler.py:242-272 | one pass of the points loop keeps the loop's invariant `MarkedUpTo` |
| Crawler.EarthCrawler.MarkPlace | earth_crawler.py:244-271 | one point: its address record; with a location, a point named after it and the progress set to it; without one, nothing changes |
| Crawler.CollectAddress | earth_crawler.py:249-259 | the key loop builds `AddressFields` of the address |
| Crawler.EarthCrawler.WriteSheet | earth_crawler.py:278-279 | appends one sheet with the given name and rows |
| SearchRules.LocationIsLastPlaceKey | earth_crawler.py:250-257 | `location` is set exactly when some place-type key is in the address, and then holds the value of the last such key |
| SearchRules.OtherKeysCopied | earth_crawler.py:250-259 | any other looked-at key is copied, with its value, exactly when the address has it |
| SearchRules.OnlyKnownFields | earth_crawler.py:249-259 | a record holds no field but `location` and the looked-at non-place keys |
| SearchRules.RecordsOf | earth_crawler.py:242-261 | one record per point |
| SearchRules.RecordsOfIndex | earth_crawler.py:242-261 | record `k` is the record of point `k` |
| SearchRules.Kept | earth_crawler.py:262-272 | the kept records are among the records and all have a location |
| SearchRules.KeptSnoc | earth_crawler.py:262-272 | one more record is kept, after the others, exactly when it has a location |
| SearchRules.KeptAppend | earth_crawler.py:272 | keeping distributes over concatenation, so kept records stay in point order |
| SearchRules.KeptExactly | earth_crawler.py:262-272 | a record is kept exactly when it is among the records and has a location |
| SearchRules.LastKept | earth_crawler.py:270-271 | the position found is a position of the records |
| SearchRules.LastKeptCharacterised | earth_crawler.py:270-271 | with a location at the position found and none after it, that record is the last kept one; nothing is found exactly when nothing is kept |
| SearchRules.LastMarkSnoc | earth_crawler.py:270-271 | one more record becomes the progress shown exactly when it has a location |
| SearchRules.LastMarkIsLastKept | earth_crawler.py:270-271 | the progress shown is the position and location of the last kept record, and is left as it was when nothing is kept |
| SearchRules.Placemarks | earth_crawler.py:263-264 | one point per kept record |
| Crawler.EarthCrawler.FirstNominatimSearch | earth_crawler.py:294-315 | starts an empty document, keeps the resolver's candidates for the request's query, and gives their area id or the IndexError |
| Crawler.SearchQuery | earth_crawler.py:295-303 | a free-text query when the search type is `world` or empty, else the name given for the search-type field, always with the language |
| SearchRules.AreaId | earth_crawler.py:315 | an IndexError exactly when there is no candidate or the first has an empty type |
| SearchRules.AreaIdDecodes | earth_crawler.py:315 | the area id gives back the first candidate's type letter and its number |
| Crawler.EarthCrawler.OverpassSearch | earth_crawler.py:332-355 | with the try list of the request: the answer of the first level that answers, both counters set to its relation count and the levels up to it tried; when no level answers, every level tried and the counters unchanged |
| Crawler.EarthCrawler.TryLevels | earth_crawler.py:337-355 | the same for any list of levels |
| SearchRules.FirstAnswering | earth_crawler.py:337-354 | the position found answers, and every level before it does not |
| SearchRules.FirstAnsweringAt | earth_crawler.py:337-354 | a position before which no level answers, and which answers or is the end, is the one found |
| SearchRules.OverpassAnswerIsFirst | earth_crawler.py:337-355 | there is no answer exactly when no level answers, and otherwise the answer is that of a level before which none answers |
| SearchRules.RequestedLevelFirst | earth_crawler.py:334-346 | when the requested level answers, its relations are used |
| SearchRules.TriedLevelsDistinct | earth_crawler.py:334-354 | the levels tried are distinct, so no level is queried twice |
| Crawler.EarthCrawler.SecondNominatimSearch | earth_crawler.py:366-387 | opens the writer when places and spreadsheets are both on; without a relation list sets the error flag to 1 and the stage count to 0, and leaves the document, the other progress fields and the sheets (apart from a new writer's) as they were; otherwise ends with the document, sheets, progress and error that `RunRegions` gives, the flag unchanged |
| Crawler.EarthCrawler.OpenWriter | earth_crawler.py:367-370 | creates the writer, named after the current object and with no sheets, exactly when places and spreadsheets are both on |
| Crawler.EarthCrawler.RegionLoop | earth_crawler.py:371-382 | the relation loop ends with the document, sheets, progress fields and error that `RunRegions` gives |
| Crawler.EarthCrawler.ProcessRegion | earth_crawler.py:372-382 | one relation: on a missing name, the KeyError with document, sheets and progress unchanged; otherwise the document, sheets and progress `RegionStep` gives |
| Crawler.EarthCrawler.RegionContents | earth_crawler.py:378-382 | the border step, then the places step, in the region's container, then the stage count reset |
| Crawler.EarthCrawler.RegionBorders | earth_crawler.py:378-379 | the region's shapes and the progress (stage, stage count, current object and area, area and sub-object names) as `BorderStep` gives them |
| Crawler.EarthCrawler.RegionPlaces | earth_crawler.py:380-381 | the region's points, sheet and progress (stage, stage count, place count, last kept object and its name) as `PlaceStep` gives them |
| Crawler.RegionStepFails | earth_crawler.py:372-374 | a region fails exactly when borders and places are both searched and it has no name tag, and then with KeyError `name` |
| Crawler.NamelessFromStep | earth_crawler.py:371-374 | some region from `i` on lacks a name exactly when region `i` does or one after it does |
| Crawler.RunRegionsFails | earth_crawler.py:371-382 | the loop fails exactly when borders and places are searched and some region has no name tag, and then with KeyError `name` |
| Crawler.RegionStepAppends | earth_crawler.py:372-381 | a region keeps the features and sheets before it, and adds one sheet exactly when places and spreadsheets are on |
| Crawler.RunRegionsAppends | earth_crawler.py:371-382 | the loop only appends, and writes one sheet per region when places and spreadsheets are on, none otherwise |
| Crawler.RunRegionsResetsStageNum | earth_crawler.py:371-382 | a loop over at least one region that ends without error leaves the stage count at 0 |
| Crawler.EarthCrawler.RequestAndProcessData | earth_crawler.py:389-403 | a line that does not parse ends with its ValueError and saves nothing; otherwise it handles at most one request per parsed request, all of them unless it stops, saves at most two files each, names every map file after a request, and every request after the first starts with the error flag at 0 |
| Crawler.EarthCrawler.ProcessRequests | earth_crawler.py:393-403 | the request loop: the same for a list of requests |
| Crawler.EarthCrawler.ProcessListed | earth_crawler.py:393-403 | one pass of the loop: everything `ProcessRequest` states, and in addition at most two files saved, each map file named after one of the requests, and the flag at 0 unless it stops |
| Crawler.EarthCrawler.ProcessRequest | earth_crawler.py:394-403 | `Handled`: the searches leave what `Searched` states. A stop in the searches saves nothing and leaves the flag as it was. Otherwise the flag ends at 0; a flag set before the request or a missing relation list saves nothing; else a spreadsheet export without a writer stops with the AttributeError and saves nothing, and anything else saves exactly `Saved` of the document and sheets the searches left |
| Crawler.EarthCrawler.RunSearches | earth_crawler.py:394-396 | `Searched`: the candidates kept; a resolver error is returned with an emptied document and sheets, progress and writer unchanged; otherwise the writer opened as the settings ask; a missing relation list empties the document, resets the stage count and sets the flag to 1; a found one runs `RunRegions` from an emptied document with both relation counters at the number of relations, and the only stop is KeyError `name` |
| Crawler.EarthCrawler.FindRegions | earth_crawler.py:394-395 | the first two searches give `Answer` on an emptied document, keep the resolver's candidates, and set both relation counters to the number of relations found, leaving every other progress field as it was |
| Crawler.EarthCrawler.SaveOrReset | earth_crawler.py:397-403 | with the flag at 0: the spreadsheet, or the AttributeError of a missing writer, then the map as the settings ask; with the flag set: nothing saved; the flag ends at 0 |
| Crawler.Saved | earth_crawler.py:397-401 | the spreadsheet first and the map last, each exactly when its export is on |
| Crawler.SavedNamed | earth_crawler.py:397-401 | what a request saves is at most two files, and its map file is named after the request |
| Crawler.FilesNamedAppend | earth_crawler.py:393-401 | file naming after the requests is kept across requests |
| SearchRules.KmlFileName | earth_crawler.py:148-152 | the file name is the request name followed by ` (lines)` or ` (polygons)` as the mode is |
| SearchRules.KmlFileNameInjective | earth_crawler.py:148-152 | different names or modes never give the same file name |
| Crawler.EarthCrawler.constructor | earth_crawler.py:24-37 | the crawler keeps the store it is given and starts with no writer and nothing saved (and an empty document object, see "Left out") |
| Tempdata.TempData.constructor | tempdata.py:24-64 | the store starts with the defaults written in its initialiser; the current stage and the current object, which it leaves unset, are unconstrained |
| Tempdata.NormalizeHex | tempdata.py:145 | hex normalisation succeeds exactly for `#` and three or six hex digits, optionally followed by one final line feed (the pattern's `$`), and then gives a lower-case `#rrggbb` |
| Tempdata.GetColor | tempdata.py:144-155 | the result has no upper-case letter |
| Tempdata.HexReading | tempdata.py:145 | the setting reads as hex exactly when it is three or six hex digits, optionally followed by one final line feed |
| Tempdata.GetColorShortHex | tempdata.py:145-146 | three digits become `#` and each digit twice, in lower case |
| Tempdata.GetColorLongHex | tempdata.py:145-146 | six digits are kept, in lower case, behind `#` |
| Tempdata.GetColorHexWins | tempdata.py:144-151 | a hex reading never consults the name table and gives a normalised hex code |
| Tempdata.GetColorByName | tempdata.py:149-151 | a non-hex setting with a known name gives that name's value in lower case |
| Tempdata.GetColorFallsBackToRed | tempdata.py:152-155 | neither hex nor a known name gives `#ff0000` |
| Tempdata.GetColorHashPrefixNotHex | tempdata.py:145-155 | a setting that itself starts with `#` never reads as hex |
| Tempdata.GetColorIsHexCode | tempdata.py:139-155 | with a table of `#rrggbb` values, the result is always `#` and six lower-case hex digits |
| Tempdata.GetColorIdempotent | tempdata.py:144-155 | normalising a result again, without its `#`, gives it back |
| Tempdata.GetColorBlue | tests/test_tempdata.py:35 | `blue` gives `#0000ff` through the name table |
| Tempdata.GetColorShortExample | tests/test_tempdata.py:36 | `09c` gives `#0099cc` |
| Tempdata.GetColorEmpty | tests/test_tempdata.py:37 | the empty setting gives `#ff0000` |
| Tempdata.GetColorFinalNewline | tempdata.py:145-146 | three or six hex digits followed by one line feed give the same colour as the digits alone |
| Tempdata.GetColorNewlineExample | tempdata.py:145-146 | `"09c\n"` gives `#0099cc` |

## Left out

- The user interface (earth_crawler_gui.py), the GUI signals raised by the store's `current_obj` and `current_stage` setters, and the worker thread. They are interface and concurrency; the two setters are plain fields here.
- logger.py, `get_settings` (reading config.ini) and `set_logger`. They are file and logging set-up. The store starts with its initialiser's defaults, and the settings are otherwise whatever its fields hold.
- The Nominatim and Overpass calls. They are network I/O, and they are the parameters in `Services`:
  - The boundary query gets the area id and the level instead of the query text `overpassQueryBuilder` would build.
  - Lookups get an `ElementRef` instead of the `<type>/<id>` text. `ElementPathInjective` shows the two name the same element.
  - The request options (zoom, timeout, language parameter) are left out, except for the language, which is passed along.
- shapely's well-known-text parsing. The geometry arrives parsed. A geometry without a type attribute adds nothing, which is also what the model's `OtherGeometry` does.
- `configure_kml_obj` and the fill setting. Colour, width and fill are styling, and shapes carry no style here.
- pandas and the spreadsheet writer. A sheet is a name with its records, and the columns are not modelled. A saved spreadsheet or map is an entry in the crawler's `exports` list. The `.\exports\` paths and the `.kml`/`.xlsx` extensions are left out.
- `print` output and the warnings logged by `overpass_search` and `second_nominatim_search`. They only report.
- Coordinates are carried as opaque pairs of reals. No arithmetic is done on them.
- A `TypeError` other than the missing relation list, and exceptions other than the four modelled ones. They come from the services' internals (a tag list or address that is not a mapping), which are not modelled.
- The `TypeError` of `len(points.nodes())` at earth_crawler.py:241, for a place query without a node list. `second_nominatim_search` would catch it (earth_crawler.py:383-387), set the error flag to 1 and abandon the remaining regions. The place query of `Services` always gives a list, so this path is not modelled.
- The empty try list cannot happen: the try list always holds the requested level. If it did, `overpass_search` would return the unbound query method.
- `script_sequence`, which logs an uncaught exception. In the model the batch ends and the exception is returned.
- Text.ParseInt: accepts ASCII digits only. Python's `int()` also accepts other Unicode decimal digits.
- Text.AsciiLower: lower-cases ASCII letters only, where Python's `lower()` covers all of Unicode. Colour settings and colour names are ASCII.
- Tempdata.GetColor: the colour-name table is a parameter. `GetColorIsHexCode` and `GetColorIdempotent` assume a table of lower-case names mapped to `#rrggbb` values, as the colour library's table is.
- Crawler.EarthCrawler.RequestAndProcessData: says how many files are saved per request, how the map files are named, and what each request's error flag is. It does not say what the files contain. `ProcessRequest` and `ProcessListed` state that for one request.
- Crawler.EarthCrawler.ProcessRequests: the same as `RequestAndProcessData`, for the request loop.
- Crawler.EarthCrawler.constructor: also creates the crawler's empty document. The code creates `kml_doc` only when the first search starts (earth_crawler.py:294); no model member reads the document before that.
- Tempdata.TempData.constructor: `current_stage` and `current_obj` are commented out in the initialiser (tempdata.py:46, 52), so those two fields start with arbitrary values.
