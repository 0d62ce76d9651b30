/**
 * The view-model of the crop profile page (src/components/CropProfile.tsx):
 * which record is shown, how the four image collections become one gallery
 * list, and how each displayed field falls back from the bundled static
 * record to the remote record to a placeholder.
 *
 * JavaScript truthiness is spelled out: a string is truthy when present and
 * non-empty, a number when present and non-zero, an array whenever present.
 */
module CropProfile {

  import opened Wrappers
  import opened ImageGallery

  const NotSpecified: string := "Not specified"

  // ---------------------------------------------------------------------------
  // Records
  // ---------------------------------------------------------------------------

  /** The fields of the bundled static record that the modelled expressions read. */
  datatype StaticCrop = StaticCrop(
    name: string,
    scientificName: Option<string>,
    family: Option<string>,
    season: Option<seq<string>>,
    temperature: Option<string>,
    rainfall: Option<string>,
    humidity: Option<string>,
    soilType: Option<seq<string>>,
    soilPh: Option<string>,
    drainage: Option<string>,
    costOfCultivation: Option<string>,
    marketPrice: Option<string>,
    averageYield: Option<string>,
    varietyCount: Option<nat>)   // length of its variety list, when it has one

  /** The fields of the remote crop row that the modelled expressions read. */
  datatype DbCrop = DbCrop(
    id: string,
    name: string,
    scientificName: Option<string>,
    family: Option<string>,
    season: Option<seq<string>>,
    temperatureRange: Option<string>,
    rainfallRequirement: Option<string>,
    humidityRange: Option<string>,
    soilType: Option<seq<string>>,
    soilPh: Option<string>,
    drainageRequirement: Option<string>,
    costOfCultivation: Option<string>,
    marketPrice: Option<string>,
    averageYield: Option<string>)

  /** `cropData = crop || dbCrop`. */
  datatype CropRecord = FromStatic(s: StaticCrop) | FromDatabase(d: DbCrop) {
    function Name(): string
    {
      match this
      case FromStatic(s) => s.name
      case FromDatabase(d) => d.name
    }
  }

  datatype ProfileView = NotFound | Blank | Profile(record: CropRecord)

  /** Which page the profile renders (the not-found page, nothing yet, or the profile). */
  function View(crop: Option<StaticCrop>, dbCrop: Option<DbCrop>, loading: bool): (v: ProfileView)
    ensures v.NotFound? <==> crop.None? && dbCrop.None? && !loading
    ensures v.Blank? <==> crop.None? && dbCrop.None? && loading
    ensures crop.Some? ==> v == Profile(FromStatic(crop.value))
    ensures crop.None? && dbCrop.Some? ==> v == Profile(FromDatabase(dbCrop.value))
  {
    if crop.None? && dbCrop.None? && !loading then NotFound
    else if crop.Some? then Profile(FromStatic(crop.value))
    else if dbCrop.Some? then Profile(FromDatabase(dbCrop.value))
    else Blank
  }

  // ---------------------------------------------------------------------------
  // The merged gallery list
  // ---------------------------------------------------------------------------

  /** A row of one of the four image collections. */
  datatype ImageRow = ImageRow(
    id: string,
    imageUrl: string,
    caption: Option<string>,
    altText: Option<string>,
    isPrimary: Option<bool>)

  predicate Truthy(s: Option<string>)
  {
    s.Some? && s.value != ""
  }

  /** One `map` callback: copy the row, tag it and title it `caption || fallback`. */
  function ToGalleryImage(row: ImageRow, category: Category, fallbackTitle: string): ImageData
  {
    ImageData(row.id, row.imageUrl,
              if Truthy(row.caption) then row.caption.value else fallbackTitle,
              row.altText, category, row.isPrimary)
  }

  function ToGalleryImages(rows: seq<ImageRow>, category: Category, fallbackTitle: string): (r: seq<ImageData>)
    ensures |r| == |rows|
    ensures forall k :: 0 <= k < |r| ==> r[k] == ToGalleryImage(rows[k], category, fallbackTitle)
    ensures forall k :: 0 <= k < |r| ==> r[k].category == category
  {
    seq(|rows|, k requires 0 <= k < |rows| => ToGalleryImage(rows[k], category, fallbackTitle))
  }

  function CropSegment(name: string, rows: seq<ImageRow>): seq<ImageData>
  {
    ToGalleryImages(rows, Crop, name + " Image")
  }

  function VarietySegment(rows: seq<ImageRow>): seq<ImageData>
  {
    ToGalleryImages(rows, Variety, "Variety Image")
  }

  function PestSegment(rows: seq<ImageRow>): seq<ImageData>
  {
    ToGalleryImages(rows, Pest, "Pest Image")
  }

  function DiseaseSegment(rows: seq<ImageRow>): seq<ImageData>
  {
    ToGalleryImages(rows, Disease, "Disease Image")
  }

  /**
   * `allImages`: the four collections, mapped and spread in this order; the
   * crop images' fallback title uses the name of the record being shown.
   */
  function AllImages(record: CropRecord, cropImages: seq<ImageRow>, varietyImages: seq<ImageRow>,
                     pestImages: seq<ImageRow>, diseaseImages: seq<ImageRow>): (r: seq<ImageData>)
    ensures |r| == |cropImages| + |varietyImages| + |pestImages| + |diseaseImages|
  {
    CropSegment(record.Name(), cropImages) + VarietySegment(varietyImages)
    + PestSegment(pestImages) + DiseaseSegment(diseaseImages)
  }

  /** The gallery entry built from `row`: fields copied, tag set, title chosen. */
  ghost predicate MadeFrom(img: ImageData, row: ImageRow, category: Category, fallbackTitle: string)
  {
    && img.id == row.id
    && img.url == row.imageUrl
    && img.caption == row.altText
    && img.isPrimary == row.isPrimary
    && img.category == category
    && (Truthy(row.caption) ==> img.title == row.caption.value)
    && (!Truthy(row.caption) ==> img.title == fallbackTitle)
  }

  /** Position `k` of the merged list comes from the row at the same offset in its segment. */
  lemma AllImagesAt(record: CropRecord, cropImages: seq<ImageRow>, varietyImages: seq<ImageRow>,
                    pestImages: seq<ImageRow>, diseaseImages: seq<ImageRow>, k: int)
    requires 0 <= k < |cropImages| + |varietyImages| + |pestImages| + |diseaseImages|
    ensures var img := AllImages(record, cropImages, varietyImages, pestImages, diseaseImages)[k];
      var a, b, c := |cropImages|, |cropImages| + |varietyImages|, |cropImages| + |varietyImages| + |pestImages|;
      && (k < a ==> MadeFrom(img, cropImages[k], Crop, record.Name() + " Image"))
      && (a <= k < b ==> MadeFrom(img, varietyImages[k - a], Variety, "Variety Image"))
      && (b <= k < c ==> MadeFrom(img, pestImages[k - b], Pest, "Pest Image"))
      && (c <= k ==> MadeFrom(img, diseaseImages[k - c], Disease, "Disease Image"))
  {
    var s1 := CropSegment(record.Name(), cropImages);
    var s2 := VarietySegment(varietyImages);
    var s3 := PestSegment(pestImages);
    var s4 := DiseaseSegment(diseaseImages);
    var r := s1 + s2 + s3 + s4;
    var a, b, c := |s1|, |s1| + |s2|, |s1| + |s2| + |s3|;
    if k < a {
      assert r[k] == s1[k];
    } else if k < b {
      assert r[k] == s2[k - a];
    } else if k < c {
      assert r[k] == s3[k - b];
    } else {
      assert r[k] == s4[k - c];
    }
  }

  /** Every merged image has a non-empty title: the fallback titles are never empty. */
  lemma AllImagesTitled(record: CropRecord, cropImages: seq<ImageRow>, varietyImages: seq<ImageRow>,
                        pestImages: seq<ImageRow>, diseaseImages: seq<ImageRow>)
    ensures forall img :: img in AllImages(record, cropImages, varietyImages, pestImages, diseaseImages) ==>
      img.title != ""
  {
    var r := AllImages(record, cropImages, varietyImages, pestImages, diseaseImages);
    forall img | img in r
      ensures img.title != ""
    {
      var k :| 0 <= k < |r| && r[k] == img;
      AllImagesAt(record, cropImages, varietyImages, pestImages, diseaseImages, k);
      assert (record.Name() + " Image")[|record.Name()|] == ' ';
    }
  }

  ghost predicate Tagged(s: seq<ImageData>, tag: Category)
  {
    forall k :: 0 <= k < |s| ==> s[k].category == tag
  }

  /** A segment survives a filter on its own tag and vanishes under any other. */
  lemma FilterTagged(s: seq<ImageData>, tag: Category, c: Category)
    requires Tagged(s, tag)
    ensures FilterBy(s, c.Name()) == if c == tag then s else []
  {
    if c == tag {
      FilterByAllMatching(s, c.Name());
    } else {
      FilterByNoneMatching(s, c.Name());
    }
  }

  /** Filtering four concatenated segments filters each one in place. */
  lemma FilterFourAppend(s1: seq<ImageData>, s2: seq<ImageData>, s3: seq<ImageData>, s4: seq<ImageData>,
                         selected: string)
    ensures FilterBy(s1 + s2 + s3 + s4, selected)
      == FilterBy(s1, selected) + FilterBy(s2, selected) + FilterBy(s3, selected) + FilterBy(s4, selected)
  {
    FilterByAppend(s1 + s2 + s3, s4, selected);
    FilterByAppend(s1 + s2, s3, selected);
    FilterByAppend(s1, s2, selected);
  }

  /** Keeping only the segment whose tag is `c` leaves that segment alone. */
  lemma PickSegment(s1: seq<ImageData>, s2: seq<ImageData>, s3: seq<ImageData>, s4: seq<ImageData>,
                    c: Category)
    ensures (if c == Crop then s1 else []) + (if c == Variety then s2 else [])
          + (if c == Pest then s3 else []) + (if c == Disease then s4 else [])
      == match c
         case Crop => s1
         case Variety => s2
         case Pest => s3
         case Disease => s4
         case Cultivation => []
  {
    match c
    case Crop => assert s1 + [] + [] + [] == s1;
    case Variety => assert [] + s2 + [] + [] == s2;
    case Pest => assert [] + [] + s3 + [] == s3;
    case Disease => assert [] + [] + [] + s4 == s4;
    case Cultivation =>
  }

  /** Filtering four consecutive segments tagged crop, variety, pest and disease picks one of them. */
  lemma FilterFourTagged(s1: seq<ImageData>, s2: seq<ImageData>, s3: seq<ImageData>, s4: seq<ImageData>,
                         c: Category)
    requires Tagged(s1, Crop) && Tagged(s2, Variety) && Tagged(s3, Pest) && Tagged(s4, Disease)
    ensures FilterBy(s1 + s2 + s3 + s4, c.Name())
      == match c
         case Crop => s1
         case Variety => s2
         case Pest => s3
         case Disease => s4
         case Cultivation => []
  {
    FilterFourAppend(s1, s2, s3, s4, c.Name());
    FilterTagged(s1, Crop, c);
    FilterTagged(s2, Variety, c);
    FilterTagged(s3, Pest, c);
    FilterTagged(s4, Disease, c);
    PickSegment(s1, s2, s3, s4, c);
  }

  /**
   * Filtering the merged list by a category gives back exactly that segment,
   * so each category badge counts the rows of one collection.
   */
  lemma AllImagesBySegment(record: CropRecord, cropImages: seq<ImageRow>, varietyImages: seq<ImageRow>,
                           pestImages: seq<ImageRow>, diseaseImages: seq<ImageRow>, c: Category)
    ensures Filtered(AllImages(record, cropImages, varietyImages, pestImages, diseaseImages), c.Name())
      == match c
         case Crop => CropSegment(record.Name(), cropImages)
         case Variety => VarietySegment(varietyImages)
         case Pest => PestSegment(pestImages)
         case Disease => DiseaseSegment(diseaseImages)
         case Cultivation => []
  {
    FilterFourTagged(CropSegment(record.Name(), cropImages), VarietySegment(varietyImages),
                     PestSegment(pestImages), DiseaseSegment(diseaseImages), c);
  }

  // ---------------------------------------------------------------------------
  // Displayed fields
  // ---------------------------------------------------------------------------

  /** JavaScript's `a || b` on optional strings. */
  function Or(a: Option<string>, b: Option<string>): Option<string>
  {
    if Truthy(a) then a else b
  }

  /** `staticValue || remoteValue || 'Not specified'`. */
  function Display(staticValue: Option<string>, remoteValue: Option<string>): (r: string)
    ensures r != ""
    ensures Truthy(staticValue) ==> r == staticValue.value
    ensures !Truthy(staticValue) && Truthy(remoteValue) ==> r == remoteValue.value
    ensures !Truthy(staticValue) && !Truthy(remoteValue) ==> r == NotSpecified
  {
    Or(Or(staticValue, remoteValue), Some(NotSpecified)).value
  }

  /** The text fields shown with a 'Not specified' fallback. */
  datatype Field =
    | Family | ScientificName
    | Temperature | Rainfall | Humidity
    | SoilPh | Drainage
    | CostOfCultivation | MarketPrice | AverageYield

  /** `crop?.<path>`: absent when the static record or an enclosing object is. */
  function StaticValue(crop: Option<StaticCrop>, f: Field): Option<string>
  {
    match crop
    case None => None
    case Some(c) =>
      match f
      case Family => c.family
      case ScientificName => c.scientificName
      case Temperature => c.temperature
      case Rainfall => c.rainfall
      case Humidity => c.humidity
      case SoilPh => c.soilPh
      case Drainage => c.drainage
      case CostOfCultivation => c.costOfCultivation
      case MarketPrice => c.marketPrice
      case AverageYield => c.averageYield
  }

  /** `dbCrop?.<column>`. */
  function RemoteValue(dbCrop: Option<DbCrop>, f: Field): Option<string>
  {
    match dbCrop
    case None => None
    case Some(d) =>
      match f
      case Family => d.family
      case ScientificName => d.scientificName
      case Temperature => d.temperatureRange
      case Rainfall => d.rainfallRequirement
      case Humidity => d.humidityRange
      case SoilPh => d.soilPh
      case Drainage => d.drainageRequirement
      case CostOfCultivation => d.costOfCultivation
      case MarketPrice => d.marketPrice
      case AverageYield => d.averageYield
  }

  /**
   * The text shown for field `f`: the static value at its path, else the
   * remote value in its column, else the placeholder.
   */
  function FieldText(crop: Option<StaticCrop>, dbCrop: Option<DbCrop>, f: Field): (r: string)
    ensures r != ""
    ensures Truthy(StaticValue(crop, f)) ==> r == StaticValue(crop, f).value
    ensures !Truthy(StaticValue(crop, f)) && Truthy(RemoteValue(dbCrop, f)) ==> r == RemoteValue(dbCrop, f).value
    ensures !Truthy(StaticValue(crop, f)) && !Truthy(RemoteValue(dbCrop, f)) ==> r == NotSpecified
  {
    Display(StaticValue(crop, f), RemoteValue(dbCrop, f))
  }

  /** The static record wins whenever it has a non-empty value, even if the remote row has one too. */
  lemma StaticFieldWins(crop: StaticCrop, dbCrop: Option<DbCrop>, f: Field)
    requires Truthy(StaticValue(Some(crop), f))
    ensures FieldText(Some(crop), dbCrop, f) == StaticValue(Some(crop), f).value
  {
  }

  /** Without a static record, a field shows the remote value or the placeholder. */
  lemma RemoteFieldWithoutStatic(dbCrop: Option<DbCrop>, f: Field)
    ensures FieldText(None, dbCrop, f)
      == if Truthy(RemoteValue(dbCrop, f)) then RemoteValue(dbCrop, f).value else NotSpecified
  {
  }

  /** What React renders for an optional string: `undefined` and `null` render as nothing. */
  function Rendered(v: Option<string>): string
  {
    if v.Some? then v.value else ""
  }

  /** The header title `crop?.name || dbCrop?.name`: no placeholder, so it can render empty. */
  function HeaderName(crop: Option<StaticCrop>, dbCrop: Option<DbCrop>): (r: string)
    ensures crop.Some? && crop.value.name != "" ==> r == crop.value.name
    ensures (crop.None? || crop.value.name == "") && dbCrop.Some? ==> r == dbCrop.value.name
    ensures (crop.None? || crop.value.name == "") && dbCrop.None? ==> r == ""
  {
    Rendered(Or(if crop.Some? then Some(crop.value.name) else None,
                if dbCrop.Some? then Some(dbCrop.value.name) else None))
  }

  /** The header subtitle `crop?.scientificName || dbCrop?.scientific_name`, also without a placeholder. */
  function HeaderScientificName(crop: Option<StaticCrop>, dbCrop: Option<DbCrop>): (r: string)
    ensures Truthy(StaticValue(crop, ScientificName)) ==> r == StaticValue(crop, ScientificName).value
    ensures !Truthy(StaticValue(crop, ScientificName)) && Truthy(RemoteValue(dbCrop, ScientificName))
      ==> r == RemoteValue(dbCrop, ScientificName).value
    ensures !Truthy(StaticValue(crop, ScientificName)) && !Truthy(RemoteValue(dbCrop, ScientificName))
      ==> r == ""
  {
    Rendered(Or(StaticValue(crop, ScientificName), RemoteValue(dbCrop, ScientificName)))
  }

  /**
   * The header and the botanical details show the same scientific name, except
   * that where the header is empty the details show the placeholder.
   */
  lemma HeaderAndDetailsScientificName(crop: Option<StaticCrop>, dbCrop: Option<DbCrop>)
    ensures var header := HeaderScientificName(crop, dbCrop);
      FieldText(crop, dbCrop, ScientificName) == if header == "" then NotSpecified else header
  {
  }

  /** JavaScript's `a || b` on counts: zero and `undefined` are falsy. */
  function CountOr(a: Option<nat>, b: Option<nat>): Option<nat>
  {
    if a.Some? && a.value != 0 then a else b
  }

  /** `crop?.varieties?.length || dbVarieties.length || 0`. */
  function VarietyCount(crop: Option<StaticCrop>, dbVarietyCount: nat): (r: nat)
    ensures crop.Some? && crop.value.varietyCount.Some? && crop.value.varietyCount.value != 0
      ==> r == crop.value.varietyCount.value
    ensures (crop.None? || crop.value.varietyCount.None? || crop.value.varietyCount.value == 0)
      ==> r == dbVarietyCount
  {
    var staticCount := if crop.Some? then crop.value.varietyCount else None;
    CountOr(CountOr(staticCount, Some(dbVarietyCount)), Some(0)).value
  }

  /** `xs.join(sep)`: starts with the first element and ends with the last. */
  function Join(xs: seq<string>, sep: string): (r: string)
    ensures xs == [] ==> r == ""
    ensures xs != [] ==> |xs[0]| <= |r| && r[..|xs[0]|] == xs[0]
    ensures xs != [] ==> |xs[|xs| - 1]| <= |r| && r[|r| - |xs[|xs| - 1]|..] == xs[|xs| - 1]
  {
    if |xs| == 0 then ""
    else if |xs| == 1 then xs[0]
    else xs[0] + sep + Join(xs[1..], sep)
  }

  function TotalLength(xs: seq<string>): nat
  {
    if xs == [] then 0 else |xs[0]| + TotalLength(xs[1..])
  }

  /** A join holds every element and one separator between neighbours. */
  lemma {:induction false} JoinLength(xs: seq<string>, sep: string)
    requires xs != []
    ensures |Join(xs, sep)| == TotalLength(xs) + (|xs| - 1) * |sep|
  {
    if |xs| > 1 {
      JoinLength(xs[1..], sep);
    } else {
      assert xs[1..] == [];
    }
  }

  /** Appending an element appends one separator and that element. */
  lemma {:induction false} JoinSnoc(xs: seq<string>, y: string, sep: string)
    requires xs != []
    ensures Join(xs + [y], sep) == Join(xs, sep) + sep + y
  {
    if |xs| == 1 {
      assert xs + [y] == [xs[0], y];
    } else {
      assert (xs + [y])[1..] == xs[1..] + [y];
      JoinSnoc(xs[1..], y, sep);
    }
  }

  /** With a non-empty separator a join is empty only for `[]` and `[""]`. */
  lemma JoinEmpty(xs: seq<string>, sep: string)
    requires sep != ""
    ensures Join(xs, sep) == "" <==> xs == [] || xs == [""]
  {
    if |xs| > 1 {
      assert |Join(xs, sep)| >= |sep|;
    } else if |xs| == 1 {
      assert xs == [xs[0]];
    }
  }

  /** `a || b || []` on optional lists: a present list is truthy even when empty. */
  function ChosenList(staticList: Option<seq<string>>, remoteList: Option<seq<string>>): (r: seq<string>)
    ensures staticList.Some? ==> r == staticList.value
    ensures staticList.None? && remoteList.Some? ==> r == remoteList.value
    ensures staticList.None? && remoteList.None? ==> r == []
  {
    match staticList
    case Some(xs) => xs
    case None => if remoteList.Some? then remoteList.value else []
  }

  /** The season badge: `(crop?.season || dbCrop?.season || []).join(', ')`. */
  function SeasonText(crop: Option<StaticCrop>, dbCrop: Option<DbCrop>): (r: string)
    ensures crop.Some? && crop.value.season.Some? ==> r == Join(crop.value.season.value, ", ")
    ensures (crop.None? || crop.value.season.None?) && dbCrop.Some? && dbCrop.value.season.Some?
      ==> r == Join(dbCrop.value.season.value, ", ")
    ensures (crop.None? || crop.value.season.None?) && (dbCrop.None? || dbCrop.value.season.None?)
      ==> r == ""
  {
    Join(ChosenList(if crop.Some? then crop.value.season else None,
                    if dbCrop.Some? then dbCrop.value.season else None), ", ")
  }

  /** `crop?.soil?.type || dbCrop?.soil_type || []`. */
  function SoilTypes(crop: Option<StaticCrop>, dbCrop: Option<DbCrop>): (r: seq<string>)
    ensures crop.Some? && crop.value.soilType.Some? ==> r == crop.value.soilType.value
    ensures (crop.None? || crop.value.soilType.None?) && dbCrop.Some? && dbCrop.value.soilType.Some?
      ==> r == dbCrop.value.soilType.value
    ensures (crop.None? || crop.value.soilType.None?) && (dbCrop.None? || dbCrop.value.soilType.None?)
      ==> r == []
  {
    ChosenList(if crop.Some? then crop.value.soilType else None,
               if dbCrop.Some? then dbCrop.value.soilType else None)
  }

  /** `(crop?.soil?.type || dbCrop?.soil_type || []).join(', ') || 'Not specified'`. */
  function SoilText(crop: Option<StaticCrop>, dbCrop: Option<DbCrop>): (r: string)
    ensures r != ""
  {
    var joined := Join(SoilTypes(crop, dbCrop), ", ");
    if joined == "" then NotSpecified else joined
  }

  /**
   * The placeholder appears exactly when the chosen list is empty or holds one
   * empty name; otherwise the names are shown joined.
   */
  lemma SoilTextCases(crop: Option<StaticCrop>, dbCrop: Option<DbCrop>)
    ensures var types := SoilTypes(crop, dbCrop);
      && (types == [] || types == [""] ==> SoilText(crop, dbCrop) == NotSpecified)
      && (types != [] && types != [""] ==> SoilText(crop, dbCrop) == Join(types, ", "))
  {
    JoinEmpty(SoilTypes(crop, dbCrop), ", ");
  }

  /** A static record with an empty soil list hides the remote list entirely. */
  lemma EmptyStaticSoilHidesRemote(crop: StaticCrop, dbCrop: Option<DbCrop>)
    requires crop.soilType == Some([])
    ensures SoilText(Some(crop), dbCrop) == NotSpecified
  {
  }
}
