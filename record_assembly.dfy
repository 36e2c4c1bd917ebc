/** One CSV row plus the files uploaded for it becomes one property record
    (`validateAndTransformRecord` in app/api/upload/data/route.ts). */
module RecordAssembly {
  import opened Wrappers
  import opened Json

  /** A parsed CSV row: column name to cell text. A column the header does not
      have is absent from the map (JavaScript's `undefined`). */
  type Row = map<string, string>

  /** A pre-uploaded file descriptor from the `uploadedFiles` form field.
      `aiDescription` and `transcript` exist only on video descriptors. */
  datatype UploadedFile = UploadedFile(
    url: string,
    description: string,
    propertyIndex: int,
    fileType: string,
    aiDescription: Option<string>,
    transcript: Option<Json>)

  /** One element of a record's `images` or `videos` array: either an element
      already embedded in the CSV cell, or an entry built from an uploaded file. */
  datatype MediaEntry =
    | Embedded(value: Json)
    | UploadedImage(url: string, description: string)
    | UploadedVideo(url: string, description: string, transcript: Option<Json>, aiDescription: Option<string>)

  /** The row as it is inserted into the `properties` table. `JNull` stands for
      a `null` column. */
  datatype PropertyRecord = PropertyRecord(
    route: string,
    meta: Json,
    images: seq<MediaEntry>,
    ratings: Json,
    features: Json,
    link: Option<string>,
    videos: seq<MediaEntry>)

  // ---------------------------------------------------------------------------
  // Selecting the elements with a given key (`filter(x => key(x) === k)`)
  // ---------------------------------------------------------------------------

  /** The elements of `s` whose key is `k`, in their original order. */
  function Select<T, K(==)>(s: seq<T>, key: T -> K, k: K): (r: seq<T>)
    ensures |r| <= |s|
    ensures forall x :: x in r ==> x in s && key(x) == k
  {
    if s == [] then []
    else (if key(s[0]) == k then [s[0]] else []) + Select(s[1..], key, k)
  }

  /** Selecting distributes over concatenation: relative order is kept. */
  lemma {:induction false} SelectConcat<T, K>(a: seq<T>, b: seq<T>, key: T -> K, k: K)
    ensures Select(a + b, key, k) == Select(a, key, k) + Select(b, key, k)
  {
    if a == [] {
      assert a + b == b;
    } else {
      assert (a + b)[0] == a[0];
      assert (a + b)[1..] == a[1..] + b;
      SelectConcat(a[1..], b, key, k);
    }
  }

  /** Every occurrence of an element with key `k` is kept, and nothing else. */
  lemma {:induction false} SelectCount<T, K>(s: seq<T>, key: T -> K, k: K, x: T)
    ensures multiset(Select(s, key, k))[x] == if key(x) == k then multiset(s)[x] else 0
  {
    if s != [] {
      SelectCount(s[1..], key, k, x);
      assert s == [s[0]] + s[1..];
      assert multiset(s) == multiset([s[0]]) + multiset(s[1..]);
    }
  }

  /** Membership in a selection, both directions. */
  lemma SelectMember<T, K>(s: seq<T>, key: T -> K, k: K, x: T)
    ensures x in Select(s, key, k) <==> x in s && key(x) == k
  {
    SelectCount(s, key, k, x);
  }

  /** Nothing has key `k` exactly when the selection is empty. */
  lemma SelectEmpty<T, K>(s: seq<T>, key: T -> K, k: K)
    ensures Select(s, key, k) == [] <==> forall x :: x in s ==> key(x) != k
  {
    if Select(s, key, k) == [] {
      forall x | x in s ensures key(x) != k {
        SelectMember(s, key, k, x);
      }
    }
  }

  // ---------------------------------------------------------------------------
  // Cells
  // ---------------------------------------------------------------------------

  /** A cell is used only when the column exists and its text is not empty:
      JavaScript's truthiness of a string. */
  predicate Present(row: Row, column: string) {
    column in row && row[column] != ""
  }

  /** `row.c ? JSON.parse(row.c) : null`; `None` when the parse throws. */
  function JsonColumn(row: Row, column: string, parse: string -> Option<Json>): Option<Json> {
    if Present(row, column) then parse(row[column]) else Some(JNull)
  }

  /** `row.c ? JSON.parse(row.c) : []`, then spread into the media array;
      `None` when the parse throws or the parsed value is not iterable. */
  function EmbeddedMedia(row: Row, column: string, parse: string -> Option<Json>): Option<seq<Json>> {
    if !Present(row, column) then Some([])
    else match parse(row[column])
      case None => None
      case Some(v) => Spread(v)
  }

  /** `row.link || null`. */
  function LinkColumn(row: Row): Option<string> {
    if Present(row, "link") then Some(row["link"]) else None
  }

  function FileTypeOf(f: UploadedFile): string { f.fileType }

  function AsEmbedded(items: seq<Json>): seq<MediaEntry> {
    seq(|items|, i requires 0 <= i < |items| => Embedded(items[i]))
  }

  /** Uploaded files with `fileType === 'images'`, as `{url, description}`. */
  function ImageEntries(files: seq<UploadedFile>): seq<MediaEntry> {
    var sel := Select(files, FileTypeOf, "images");
    seq(|sel|, i requires 0 <= i < |sel| => UploadedImage(sel[i].url, sel[i].description))
  }

  /** Uploaded files with `fileType === 'videos'`, with transcript and AI description. */
  function VideoEntries(files: seq<UploadedFile>): seq<MediaEntry> {
    var sel := Select(files, FileTypeOf, "videos");
    seq(|sel|, i requires 0 <= i < |sel| =>
      UploadedVideo(sel[i].url, sel[i].description, sel[i].transcript, sel[i].aiDescription))
  }

  // ---------------------------------------------------------------------------
  // validateAndTransformRecord
  // ---------------------------------------------------------------------------

  /** The record for one CSV row, or `None` (the source's `null`) when any
      step throws. */
  function ValidateAndTransform(row: Row, route: string, files: seq<UploadedFile>,
                                parse: string -> Option<Json>): (r: Option<PropertyRecord>)
    ensures r.Some? ==> r.value.route == route
  {
    var existingImages := EmbeddedMedia(row, "images", parse);
    var existingVideos := EmbeddedMedia(row, "videos", parse);
    var meta := JsonColumn(row, "meta", parse);
    var ratings := JsonColumn(row, "ratings", parse);
    var features := JsonColumn(row, "features", parse);
    if existingImages.None? || existingVideos.None? || meta.None? || ratings.None? || features.None? then
      None
    else
      Some(PropertyRecord(
        route := route,
        meta := meta.value,
        images := AsEmbedded(existingImages.value) + ImageEntries(files),
        ratings := ratings.value,
        features := features.value,
        link := LinkColumn(row),
        videos := AsEmbedded(existingVideos.value) + VideoEntries(files)))
  }

  /** A cell that makes the record fail: a present JSON column that does not
      parse, or a media column whose parsed value cannot be spread. */
  predicate BadCell(row: Row, parse: string -> Option<Json>) {
    || (exists c :: c in ["meta", "ratings", "features", "images", "videos"] && Present(row, c) && parse(row[c]).None?)
    || (exists c :: c in ["images", "videos"] && Present(row, c) && parse(row[c]).Some?
                    && !(parse(row[c]).value.JArr? || parse(row[c]).value.JStr?))
  }

  /** The record is dropped exactly when some cell fails to parse or cannot be
      spread; the uploaded files never cause a drop. */
  lemma DroppedIffBadCell(row: Row, route: string, files: seq<UploadedFile>, parse: string -> Option<Json>)
    ensures ValidateAndTransform(row, route, files, parse).None? <==> BadCell(row, parse)
  {
  }

  /** A row with no `meta`, `ratings`, `features`, `images` or `videos` text is
      kept, with `null` structured fields and only the uploaded media. */
  lemma MissingColumnsKeepRecord(row: Row, route: string, files: seq<UploadedFile>, parse: string -> Option<Json>)
    requires forall c :: c in ["meta", "ratings", "features", "images", "videos"] ==> !Present(row, c)
    ensures var r := ValidateAndTransform(row, route, files, parse);
            && r.Some?
            && r.value.meta == JNull && r.value.ratings == JNull && r.value.features == JNull
            && r.value.images == ImageEntries(files) && r.value.videos == VideoEntries(files)
  {
  }

  /** Each structured field is the parsed cell when the cell has text, and
      `null` when it is empty or absent. */
  lemma StructuredFields(row: Row, route: string, files: seq<UploadedFile>, parse: string -> Option<Json>)
    requires ValidateAndTransform(row, route, files, parse).Some?
    ensures var rec := ValidateAndTransform(row, route, files, parse).value;
            && (Present(row, "meta") ==> Some(rec.meta) == parse(row["meta"]))
            && (!Present(row, "meta") ==> rec.meta == JNull)
            && (Present(row, "ratings") ==> Some(rec.ratings) == parse(row["ratings"]))
            && (!Present(row, "ratings") ==> rec.ratings == JNull)
            && (Present(row, "features") ==> Some(rec.features) == parse(row["features"]))
            && (!Present(row, "features") ==> rec.features == JNull)
  {
  }

  /** `link` is the cell text verbatim when it is not empty, `null` otherwise. */
  lemma LinkVerbatim(row: Row, route: string, files: seq<UploadedFile>, parse: string -> Option<Json>)
    requires ValidateAndTransform(row, route, files, parse).Some?
    ensures var rec := ValidateAndTransform(row, route, files, parse).value;
            && ("link" in row && row["link"] != "" ==> rec.link == Some(row["link"]))
            && ("link" !in row || row["link"] == "" ==> rec.link == None)
  {
  }

  /** The uploaded part of a media array: exactly the files of `fileType` `t`,
      in upload order, each entry built from that file. */
  lemma {:induction false} UploadedEntriesMatchFiles(files: seq<UploadedFile>)
    ensures |ImageEntries(files)| + |VideoEntries(files)| <= |files|
    ensures forall e :: e in ImageEntries(files) ==>
              exists f :: f in files && f.fileType == "images" && e == UploadedImage(f.url, f.description)
    ensures forall f :: f in files && f.fileType == "images" ==>
              UploadedImage(f.url, f.description) in ImageEntries(files)
    ensures forall e :: e in VideoEntries(files) ==>
              exists f :: f in files && f.fileType == "videos"
                           && e == UploadedVideo(f.url, f.description, f.transcript, f.aiDescription)
    ensures forall f :: f in files && f.fileType == "videos" ==>
              UploadedVideo(f.url, f.description, f.transcript, f.aiDescription) in VideoEntries(files)
  {
    var imgs := Select(files, FileTypeOf, "images");
    var vids := Select(files, FileTypeOf, "videos");
    SelectsDisjoint(files, "images", "videos");
    forall e | e in ImageEntries(files)
      ensures exists f :: f in files && f.fileType == "images" && e == UploadedImage(f.url, f.description)
    {
      var i :| 0 <= i < |imgs| && ImageEntries(files)[i] == e;
      assert imgs[i] in imgs;
    }
    forall f | f in files && f.fileType == "images"
      ensures UploadedImage(f.url, f.description) in ImageEntries(files)
    {
      SelectMember(files, FileTypeOf, "images", f);
      var i :| 0 <= i < |imgs| && imgs[i] == f;
      assert ImageEntries(files)[i] == UploadedImage(f.url, f.description);
    }
    forall e | e in VideoEntries(files)
      ensures exists f :: f in files && f.fileType == "videos"
                          && e == UploadedVideo(f.url, f.description, f.transcript, f.aiDescription)
    {
      var i :| 0 <= i < |vids| && VideoEntries(files)[i] == e;
      assert vids[i] in vids;
    }
    forall f | f in files && f.fileType == "videos"
      ensures UploadedVideo(f.url, f.description, f.transcript, f.aiDescription) in VideoEntries(files)
    {
      SelectMember(files, FileTypeOf, "videos", f);
      var i :| 0 <= i < |vids| && vids[i] == f;
      assert VideoEntries(files)[i] == UploadedVideo(f.url, f.description, f.transcript, f.aiDescription);
    }
  }

  /** Two selections by different keys take disjoint parts of the input:
      together they hold each file at most as often as it was uploaded, so
      together they are no longer than it; files of any third `fileType`
      account for the difference. */
  lemma {:induction false} SelectsDisjoint(s: seq<UploadedFile>, k1: string, k2: string)
    requires k1 != k2
    ensures multiset(Select(s, FileTypeOf, k1)) + multiset(Select(s, FileTypeOf, k2)) <= multiset(s)
    ensures |Select(s, FileTypeOf, k1)| + |Select(s, FileTypeOf, k2)| <= |s|
  {
    forall x | true
      ensures multiset(Select(s, FileTypeOf, k1))[x] + multiset(Select(s, FileTypeOf, k2))[x] <= multiset(s)[x]
    {
      SelectCount(s, FileTypeOf, k1, x);
      SelectCount(s, FileTypeOf, k2, x);
    }
    if s != [] {
      SelectsDisjoint(s[1..], k1, k2);
    }
  }

  /** A media cell with text is spread into the record's array: a parsed
      array contributes its items and a parsed string one one-character
      string per character, ahead of the uploaded entries; the record exists
      only when the cell parsed to one of the two. */
  lemma MediaCellSpread(row: Row, route: string, files: seq<UploadedFile>,
                        parse: string -> Option<Json>, column: string)
    requires column == "images" || column == "videos"
    requires Present(row, column)
    requires ValidateAndTransform(row, route, files, parse).Some?
    ensures var rec := ValidateAndTransform(row, route, files, parse).value;
            var media := if column == "images" then rec.images else rec.videos;
            var uploaded := if column == "images" then ImageEntries(files) else VideoEntries(files);
            var v := parse(row[column]);
            && v.Some? && (v.value.JArr? || v.value.JStr?)
            && (v.value.JArr? ==>
                  |media| == |v.value.items| + |uploaded|
                  && forall i :: 0 <= i < |v.value.items| ==> media[i] == Embedded(v.value.items[i]))
            && (v.value.JStr? ==>
                  |media| == |v.value.s| + |uploaded|
                  && forall i :: 0 <= i < |v.value.s| ==> media[i] == Embedded(JStr([v.value.s[i]])))
  {
  }

  /** Append, never replace: the media already in the row come first,
      unchanged, followed by one entry per uploaded file of the matching type,
      in upload order. */
  lemma MediaAppended(row: Row, route: string, files: seq<UploadedFile>, parse: string -> Option<Json>)
    requires ValidateAndTransform(row, route, files, parse).Some?
    ensures var rec := ValidateAndTransform(row, route, files, parse).value;
            var oldImages := EmbeddedMedia(row, "images", parse).value;
            var oldVideos := EmbeddedMedia(row, "videos", parse).value;
            var imgs := Select(files, FileTypeOf, "images");
            var vids := Select(files, FileTypeOf, "videos");
            && |rec.images| == |oldImages| + |imgs|
            && (forall i :: 0 <= i < |oldImages| ==> rec.images[i] == Embedded(oldImages[i]))
            && (forall j :: 0 <= j < |imgs| ==>
                  rec.images[|oldImages| + j] == UploadedImage(imgs[j].url, imgs[j].description))
            && |rec.videos| == |oldVideos| + |vids|
            && (forall i :: 0 <= i < |oldVideos| ==> rec.videos[i] == Embedded(oldVideos[i]))
            && (forall j :: 0 <= j < |vids| ==>
                  rec.videos[|oldVideos| + j]
                  == UploadedVideo(vids[j].url, vids[j].description, vids[j].transcript, vids[j].aiDescription))
  {
  }
}
