# Crop profile and image gallery: a Dafny model

This project models the two pieces of logic in the crop-profile UI of
crop-tree-explorer:

- **The image gallery** (`src/components/ImageGallery.tsx`). It takes a list of
  tagged images. It filters them by a selected category. It offers the category
  list: `'all'` followed by the distinct categories in first-seen order. It
  moves a carousel index circularly through the filtered list. It builds the
  file name used for a download. The pure parts are functions in module
  `ImageGallery`. The component's two pieces of state, `selectedImage` and
  `selectedCategory`, are the fields of class `ImageGallery.Gallery`. Its
  methods are the event handlers that set those fields. `Valid()` is the
  invariant that the index points into the filtered list whenever that list
  is non-empty.
- **The profile view-model** (`src/components/CropProfile.tsx`). This covers:
  - which page is rendered: the not-found page, nothing, or the profile of
    the static record or else the remote record;
  - how the crop, variety, pest and disease image rows become one gallery
    list;
  - the header's name and scientific name, which have no placeholder;
  - how ten crop fields (family, scientific name, temperature, rainfall,
    humidity, soil pH, drainage, cost of cultivation, market price, average
    yield) and the soil-type list fall back from the bundled static record to
    the remote record to `'Not specified'`, and how the season badge and the
    variety count fall back.

  This part is pure and lives in module `CropProfile`. JavaScript truthiness
  is written out. A string is truthy when present and non-empty. A number is
  truthy when present and non-zero. An array is truthy whenever it is present,
  even when empty.

Module `Wrappers` holds the `Option` type, which stands for JavaScript's
`undefined` or `null` (the remote record starts as `null`, and absent remote
columns come back as `null`).

Files: `wrappers.dfy`, `image_gallery.dfy`, `crop_profile.dfy`.

Modelling choices:
- JavaScript's `%` truncates toward zero. `ImageGallery.JsRemainder` models it
  that way rather than using Dafny's Euclidean `%`.
- The `\s` in the download-name regular expression is the full set of
  characters that JavaScript's `\s` matches (`ImageGallery.IsSpace`).
- The images given to a gallery are a `const` field, fixed for the object's
  lifetime.

## Model

| member | source | states |
|---|---|---|
| `ImageGallery.Category.Name` | src/components/ImageGallery.tsx:14 | every category literal is non-empty and differs from `'all'`, so the `'all'` selection can never be mistaken for a category |
| `ImageGallery.CategoryNameInjective` | src/components/ImageGallery.tsx:14 | two categories have the same literal exactly when they are the same category |
| `ImageGallery.FilterBy` | src/components/ImageGallery.tsx:35 | the category filter never returns more images than it is given |
| `ImageGallery.FilterByOnlySelected` | src/components/ImageGallery.tsx:35 | every image in the filtered list carries the selected category |
| `ImageGallery.FilterByMembers` | src/components/ImageGallery.tsx:35 | an image is in the filtered list if and only if it is in the input and carries the selected category |
| `ImageGallery.FilterBySubsequence` | src/components/ImageGallery.tsx:35 | the filtered list is an order-preserving subsequence of the input |
| `ImageGallery.FilterByCount` | src/components/ImageGallery.tsx:90 | the filtered list's length (the badge count) equals the number of input positions whose image has the selected category |
| `ImageGallery.FilterByAppend` | src/components/ImageGallery.tsx:35 | filtering a concatenation is the concatenation of the filtered parts, so the input order is kept |
| `ImageGallery.FilterByAllMatching` | src/components/ImageGallery.tsx:35 | a list whose images all carry the category is returned whole |
| `ImageGallery.FilterByNoneMatching` | src/components/ImageGallery.tsx:35 | a list with no image of the category filters to the empty list |
| `ImageGallery.Filtered` | src/components/ImageGallery.tsx:33-35 | the component's `filteredImages` (the gallery's `Shown()`): with `'all'` the shown list is the input itself in the same order; with any other selection every shown image has that category |
| `ImageGallery.CategoryNames` | src/components/ImageGallery.tsx:38 | position k holds the category literal of image k |
| `ImageGallery.Distinct` | src/components/ImageGallery.tsx:38 | the insertion-ordered set holds exactly the input's values, each once |
| `ImageGallery.DistinctFirstSeenOrder` | src/components/ImageGallery.tsx:38 | the set's values come out ordered by their first occurrence in the input |
| `ImageGallery.Categories` | src/components/ImageGallery.tsx:38 | the category list is never empty and starts with `'all'` |
| `ImageGallery.CategoriesSpec` | src/components/ImageGallery.tsx:38 | the category list has no duplicates; after `'all'` it holds a literal exactly when some input image has that category; those literals are in first-occurrence order |
| `ImageGallery.ListedCategoryNonEmpty` | src/components/ImageGallery.tsx:57-97 | for a non-empty input, choosing any listed category shows at least one image |
| `ImageGallery.JsRemainder` | src/components/ImageGallery.tsx:41-45 | JavaScript `%`: with m the divisor's magnitude, the remainder lies strictly between -m and m and `a == trunc(a / m) * m + r` with the quotient truncated toward zero; a non-negative dividend gives a remainder in [0, m), a negative one a non-positive remainder |
| `ImageGallery.Next` | src/components/ImageGallery.tsx:40-42 | for 0 <= i < N the next index is in [0, N): i + 1, or 0 after the last image |
| `ImageGallery.Prev` | src/components/ImageGallery.tsx:44-46 | for 0 <= i < N the previous index is in [0, N): i - 1, or N - 1 before the first image |
| `ImageGallery.PrevUndoesNext` | src/components/ImageGallery.tsx:40-46 | previous undoes next and next undoes previous, for every valid index |
| `ImageGallery.AdvanceCompose` | src/components/ImageGallery.tsx:40-42 | a + b presses of next equal a presses followed by b presses |
| `ImageGallery.AdvanceCountsUp` | src/components/ImageGallery.tsx:40-42 | before the wrap-around, k presses of next add k to the index |
| `ImageGallery.FullCycle` | src/components/ImageGallery.tsx:40-42 | pressing next N times returns to the starting index |
| `ImageGallery.IsSpace` | src/components/ImageGallery.tsx:51 | the `\s` class of the download-name pattern: it includes space, tab, newline and no-break space, and never matches `_`, an ASCII letter or a digit |
| `ImageGallery.SkipSpaces` | src/components/ImageGallery.tsx:51 | drops exactly the leading whitespace run: what is dropped is all whitespace and what remains does not start with whitespace |
| `ImageGallery.Underscored` | src/components/ImageGallery.tsx:51 | the result of replacing whitespace runs contains no whitespace and is no longer than the title |
| `ImageGallery.SkipSpacesRun` | src/components/ImageGallery.tsx:51 | skipping whitespace from a whitespace run followed by a non-whitespace character stops exactly at that character |
| `ImageGallery.UnderscoredRun` | src/components/ImageGallery.tsx:51 | each maximal whitespace run becomes exactly one `_` |
| `ImageGallery.UnderscoredWord` | src/components/ImageGallery.tsx:51 | text without whitespace is copied unchanged |
| `ImageGallery.LowerChar` | src/components/ImageGallery.tsx:51 | lower-casing leaves no upper-case ASCII letter and neither creates nor removes whitespace |
| `ImageGallery.Lower` | src/components/ImageGallery.tsx:51 | lower-casing a string works character by character and keeps its length |
| `ImageGallery.DownloadFileName` | src/components/ImageGallery.tsx:51 | the file name ends in `.jpg`, contains no whitespace and no upper-case ASCII letter, and is at most 4 characters longer than the title |
| `ImageGallery.PlainTitleFileName` | src/components/ImageGallery.tsx:51 | a title that is one lower-case word becomes that word followed by `.jpg` |
| `ImageGallery.Gallery.constructor` | src/components/ImageGallery.tsx:29-30 | a new gallery shows category `'all'` at index 0 and satisfies the index invariant |
| `ImageGallery.Gallery.NextImage` | src/components/ImageGallery.tsx:40-42 | the index becomes Next(old index, N) and the invariant is kept; only the index changes |
| `ImageGallery.Gallery.PrevImage` | src/components/ImageGallery.tsx:44-46 | the index becomes Prev(old index, N) and the invariant is kept; only the index changes |
| `ImageGallery.Gallery.ChooseCategory` | src/components/ImageGallery.tsx:82-85 | the category becomes the chosen one and the index 0, which satisfies the invariant for any category |
| `ImageGallery.Gallery.SelectImage` | src/components/ImageGallery.tsx:106 | the index becomes the clicked card's position, so the shown image is the clicked one and the invariant holds |
| `ImageGallery.Gallery.View` | src/components/ImageGallery.tsx:57-265 | the empty-gallery view appears exactly when there are no images; the empty-category view appears exactly when images exist but none is shown; otherwise the grid shows exactly the filtered list and the current image is the one at the index; navigation and thumbnails are offered exactly when more than one image is shown |
| `ImageGallery.Gallery.CurrentFileName` | src/components/ImageGallery.tsx:175-181 | the download of the current image is named by `DownloadFileName` of that image's title, so it is a whitespace-free name ending in `.jpg` |
| `ImageGallery.CategoryButtonsNeverEmpty` | src/components/ImageGallery.tsx:76-97 | after any category button of a non-empty gallery the grid is shown, never the empty-category view |
| `CropProfile.View` | src/components/CropProfile.tsx:176-188 | "Crop Not Found" is shown exactly when there is no static record, no remote record and loading is over; nothing is shown while loading without a record; otherwise the static record is preferred over the remote one |
| `CropProfile.ToGalleryImages` | src/components/CropProfile.tsx:191-198 | mapping a collection gives one gallery image per row, at the same position, all tagged with the collection's category |
| `CropProfile.AllImages` | src/components/CropProfile.tsx:190-223 | the merged list's length is the sum of the four collections' row counts, the total on the overview card |
| `CropProfile.AllImagesAt` | src/components/CropProfile.tsx:190-223 | position k of the merged list comes from the row at the same offset in the crop, variety, pest or disease segment, in that order; it has that segment's category; it copies id, url, alt text (as caption) and primary flag; its title is the caption if non-empty, else `"<name of the shown record> Image"`, `"Variety Image"`, `"Pest Image"` or `"Disease Image"` |
| `CropProfile.AllImagesTitled` | src/components/CropProfile.tsx:194-218 | every merged image has a non-empty title |
| `CropProfile.FilterTagged` | src/components/CropProfile.tsx:196 | a segment tagged with one category is kept whole by a filter on that category and removed by any other |
| `CropProfile.FilterFourAppend` | src/components/CropProfile.tsx:190-223 | filtering the four spread collections equals spreading the four filtered collections, in the same order |
| `CropProfile.FilterFourTagged` | src/components/CropProfile.tsx:190-223 | filtering four consecutive segments tagged crop, variety, pest and disease yields the one segment with the filter's category, or nothing for `'cultivation'` |
| `CropProfile.AllImagesBySegment` | src/components/CropProfile.tsx:190-223 | choosing a category in the profile's gallery shows exactly the images of that collection, in row order, so each badge counts one collection |
| `CropProfile.Display` | src/components/CropProfile.tsx:503 | the static value is shown if non-empty, else the remote value if non-empty, else `'Not specified'`; the result is never empty |
| `CropProfile.FieldText` | src/components/CropProfile.tsx:351-676 | (lines 351-352, 503-515, 538-544 and 664-676) a field's text is never empty; it is the static value when truthy, else the truthy remote value, else `'Not specified'`, for the pairs family/`family`, scientificName/`scientific_name`, climate.temperature/`temperature_range`, climate.rainfall/`rainfall_requirement`, climate.humidity/`humidity_range`, soil.ph/`soil_ph`, soil.drainage/`drainage_requirement`, economics.costOfCultivation/`cost_of_cultivation`, economics.marketPrice/`market_price`, economics.averageYield/`average_yield` |
| `CropProfile.HeaderName` | src/components/CropProfile.tsx:250 | the header title is the static name when non-empty, else the remote name, else nothing: this two-operand chain has no placeholder |
| `CropProfile.HeaderScientificName` | src/components/CropProfile.tsx:253 | the header subtitle is the truthy static scientific name, else the truthy remote one, else empty, with no placeholder |
| `CropProfile.HeaderAndDetailsScientificName` | src/components/CropProfile.tsx:253 | the header subtitle and the botanical details (line 352) show the same scientific name, except that where the header is empty the details show `'Not specified'` |
| `CropProfile.StaticFieldWins` | src/components/CropProfile.tsx:538 | a non-empty static value is displayed whatever the remote record holds |
| `CropProfile.RemoteFieldWithoutStatic` | src/components/CropProfile.tsx:664 | without a static record a field shows the remote value if non-empty, else `'Not specified'` |
| `CropProfile.VarietyCount` | src/components/CropProfile.tsx:291 | the variety count is the static record's count when it is present and non-zero, otherwise the number of remote varieties (0 when both are empty) |
| `CropProfile.Join` | src/components/CropProfile.tsx:257 | `Array.prototype.join`: the empty list joins to `""`; a non-empty list's join starts with its first element and ends with its last |
| `CropProfile.JoinLength` | src/components/CropProfile.tsx:532 | the length of a join of a non-empty list is the total length of the elements plus one separator length per pair of neighbours |
| `CropProfile.JoinSnoc` | src/components/CropProfile.tsx:532 | appending an element to a non-empty list appends exactly one separator and then that element to its join |
| `CropProfile.JoinEmpty` | src/components/CropProfile.tsx:532 | with a non-empty separator, a join is empty exactly for `[]` and `[""]` |
| `CropProfile.ChosenList` | src/components/CropProfile.tsx:532 | a present static list is used even when empty; else a present remote list; else the empty list |
| `CropProfile.SeasonText` | src/components/CropProfile.tsx:257 | the season badge joins the static season list when present, else the remote one, else shows the empty string |
| `CropProfile.SoilTypes` | src/components/CropProfile.tsx:532 | the soil-type list is the static list when present (even empty), else the remote list when present, else `[]` |
| `CropProfile.SoilText` | src/components/CropProfile.tsx:532 | the soil-type text is never empty |
| `CropProfile.SoilTextCases` | src/components/CropProfile.tsx:532 | the soil type is `'Not specified'` when the chosen list is empty or holds one empty name; otherwise it is the names joined with `', '` |
| `CropProfile.EmptyStaticSoilHidesRemote` | src/components/CropProfile.tsx:532 | a static record with an empty soil list shows `'Not specified'`, even when the remote record has soil types |

## Left out

- The variety card's `variety.duration || 'Not specified'` and `variety.yield_potential || 'Not specified'` (src/components/CropProfile.tsx:393, :397) are not modelled: they are `Display`-shaped chains over the rows of the remote variety list, whose fields the model does not carry (it keeps only that list's length).
- Remote data fetching (`fetchAllCropData`, src/components/CropProfile.tsx:116-174): network I/O against an external backend. Its results are parameters of the model: the remote crop row, the remote variety count, the four image collections and the loading flag.
- `getCropByName` and the static dataset module: their source is not part of this model. The static record is an optional `StaticCrop` with only the fields the modelled expressions read. Its variety list is given by its length.
- The DOM side of a download (creating, clicking and removing the link) and the `onError` placeholder image swap: browser effects. Only the file name is modelled.
- JSX rendering, tabs, dialogs, badges, icons and the child components `VarietyCard`, `CropFlowChart` and `ComparisonTool`: presentational, or not part of this model. Fields with other placeholders (`'N/A'`, `'No description available.'`, `'Standard'`) and the list renderings of innovations, sustainability, pests and diseases are not modelled.
- ImageGallery.LowerChar: lower-cases only the ASCII letters A-Z, because Unicode case mapping tables are not modelled. So `Lower` keeps the length of its input and `DownloadFileName` is at most 4 characters longer than the title only under this ASCII-only mapping. In JavaScript some characters lower-case to two UTF-16 code units (`"İ".toLowerCase()` has length 2).
- ImageGallery.Prev: requires a non-empty filtered list, like `ImageGallery.Next` below.
- ImageGallery.Next: requires a non-empty filtered list. With an empty list the source computes `NaN`. The buttons are rendered only when the list is non-empty and are enabled only when it has more than one image.
- ImageGallery.Gallery.SelectImage: requires the index to be in range. The source never checks it, but it only passes positions taken from the filtered list itself.
- ImageGallery.Gallery: the images are fixed for the object's lifetime. In the source, React keeps `selectedImage` and `selectedCategory` when the parent passes a new image list. A stale index after such a change is not modelled.
