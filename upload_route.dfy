/** The `POST` handler of app/api/upload/data/route.ts: required-field checks,
    the chatbot insert, grouping of pre-uploaded files by property index, one
    record per CSV row, and the batch insert of the records. */
module UploadRoute {
  import opened Wrappers
  import opened Json
  import opened RecordAssembly

  // ---------------------------------------------------------------------------
  // Grouping files by property index (the `filesByPropertyIndex` loop)
  // ---------------------------------------------------------------------------

  /** The zero-based row a file belongs to: `propertyIndex - 1`. */
  function RowKey(f: UploadedFile): int { f.propertyIndex - 1 }

  /** The files of row `k`, in upload order. */
  function Bucket(files: seq<UploadedFile>, k: int): seq<UploadedFile> {
    Select(files, RowKey, k)
  }

  /** One step of the loop: the file's bucket is created empty if missing,
      then the file is pushed onto it. */
  function Push(buckets: map<int, seq<UploadedFile>>, f: UploadedFile): map<int, seq<UploadedFile>> {
    var k := RowKey(f);
    buckets[k := (if k in buckets then buckets[k] else []) + [f]]
  }

  /** The dictionary the loop has built after the files `files`. */
  function Grouping(files: seq<UploadedFile>): map<int, seq<UploadedFile>> {
    if files == [] then map[] else Push(Grouping(files[..|files| - 1]), files[|files| - 1])
  }

  /** The dictionary has one key per row key some file carries, and each entry
      holds exactly that key's files in upload order. */
  lemma {:induction false} GroupingContents(files: seq<UploadedFile>)
    ensures forall k :: k in Grouping(files) <==> exists f :: f in files && RowKey(f) == k
    ensures forall k :: k in Grouping(files) ==> Grouping(files)[k] == Bucket(files, k)
  {
    if files != [] {
      var s, f := files[..|files| - 1], files[|files| - 1];
      assert files == s + [f];
      GroupingContents(s);
      forall k | k in Grouping(files) ensures Grouping(files)[k] == Bucket(files, k) {
        SelectConcat(s, [f], RowKey, k);
        if k == RowKey(f) && k !in Grouping(s) {
          SelectEmpty(s, RowKey, k);
        }
      }
    }
  }

  /** `filesByPropertyIndex`: buckets the descriptors by `propertyIndex - 1`. */
  method GroupByPropertyIndex(files: seq<UploadedFile>) returns (buckets: map<int, seq<UploadedFile>>)
    ensures forall k :: k in buckets <==> exists f :: f in files && RowKey(f) == k
    ensures forall k :: k in buckets ==> buckets[k] == Bucket(files, k)
    ensures buckets == Grouping(files)
  {
    buckets := map[];
    var i := 0;
    while i < |files|
      invariant 0 <= i <= |files|
      invariant buckets == Grouping(files[..i])
    {
      var file := files[i];
      var index := file.propertyIndex - 1;
      assert files[..i + 1][..i] == files[..i];
      if index !in buckets {
        buckets := buckets[index := []];
      }
      buckets := buckets[index := buckets[index] + [file]];
      i := i + 1;
    }
    assert files[..i] == files;
    GroupingContents(files);
  }

  /** A file lies in the bucket of its own row and in no other. */
  lemma FileInOwnBucketOnly(files: seq<UploadedFile>, f: UploadedFile)
    requires f in files
    ensures RowKey(f) in Grouping(files)
    ensures multiset(Grouping(files)[RowKey(f)])[f] == multiset(files)[f]
    ensures forall k :: k in Grouping(files) && k != RowKey(f) ==> f !in Grouping(files)[k]
  {
    GroupingContents(files);
    SelectCount(files, RowKey, RowKey(f), f);
  }

  /** The buckets laid end to end in the order `ks` lists their keys. */
  function Concatenated(buckets: map<int, seq<UploadedFile>>, ks: seq<int>): seq<UploadedFile>
    requires forall i :: 0 <= i < |ks| ==> ks[i] in buckets
  {
    if ks == [] then [] else buckets[ks[0]] + Concatenated(buckets, ks[1..])
  }

  lemma {:induction false} ConcatenatedCount(files: seq<UploadedFile>, ks: seq<int>, x: UploadedFile)
    requires forall i, j :: 0 <= i < j < |ks| ==> ks[i] != ks[j]
    requires forall i :: 0 <= i < |ks| ==> ks[i] in Grouping(files)
    ensures multiset(Concatenated(Grouping(files), ks))[x]
            == if RowKey(x) in ks then multiset(files)[x] else 0
  {
    GroupingContents(files);
    if ks != [] {
      ConcatenatedCount(files, ks[1..], x);
      SelectCount(files, RowKey, ks[0], x);
      assert RowKey(x) in ks <==> RowKey(x) == ks[0] || RowKey(x) in ks[1..];
      if RowKey(x) == ks[0] {
        assert RowKey(x) !in ks[1..] by {
          forall j | 0 <= j < |ks[1..]| ensures ks[1..][j] != ks[0] {
            assert ks[1..][j] == ks[j + 1];
          }
        }
      }
    }
  }

  /** The union of the buckets is a permutation of the input: concatenating
      them, in any order of their keys, gives back every file exactly as often
      as it was uploaded. */
  lemma BucketsPermuteFiles(files: seq<UploadedFile>, ks: seq<int>)
    requires forall i, j :: 0 <= i < j < |ks| ==> ks[i] != ks[j]
    requires forall i :: 0 <= i < |ks| ==> ks[i] in Grouping(files)
    requires forall k :: k in Grouping(files) ==> k in ks
    ensures multiset(Concatenated(Grouping(files), ks)) == multiset(files)
  {
    var laidOut := Concatenated(Grouping(files), ks);
    GroupingContents(files);
    forall x ensures multiset(laidOut)[x] == multiset(files)[x] {
      ConcatenatedCount(files, ks, x);
      if x in files {
        assert RowKey(x) in Grouping(files);
      }
    }
  }

  // ---------------------------------------------------------------------------
  // One record per CSV row, nulls dropped
  // ---------------------------------------------------------------------------

  /** `filesByPropertyIndex[index] || []`. */
  function RowFiles(buckets: map<int, seq<UploadedFile>>, i: int): seq<UploadedFile> {
    if i in buckets then buckets[i] else []
  }

  /** Row `i` is given exactly the files whose `propertyIndex - 1` is `i`. */
  lemma RowReceivesItsBucket(files: seq<UploadedFile>, i: int)
    ensures RowFiles(Grouping(files), i) == Bucket(files, i)
  {
    GroupingContents(files);
    if i !in Grouping(files) {
      SelectEmpty(files, RowKey, i);
    }
  }

  /** A file whose `propertyIndex - 1` names no row is handed to no row. */
  lemma OrphanFileUnused(files: seq<UploadedFile>, rowCount: nat, f: UploadedFile)
    requires !(0 <= RowKey(f) < rowCount)
    ensures forall i :: 0 <= i < rowCount ==> f !in RowFiles(Grouping(files), i)
  {
    GroupingContents(files);
  }

  /** `records.map((record, index) => validateAndTransformRecord(...))`. */
  function AssembleRows(rows: seq<Row>, route: string, buckets: map<int, seq<UploadedFile>>,
                        parse: string -> Option<Json>): (r: seq<Option<PropertyRecord>>)
    ensures |r| == |rows|
  {
    seq(|rows|, i requires 0 <= i < |rows| => ValidateAndTransform(rows[i], route, RowFiles(buckets, i), parse))
  }

  /** `.filter(record => record !== null)`. */
  function Somes<T>(xs: seq<Option<T>>): (r: seq<T>)
    ensures |r| <= |xs|
    ensures forall x :: x in r ==> Some(x) in xs
  {
    if xs == [] then []
    else (if xs[0].Some? then [xs[0].value] else []) + Somes(xs[1..])
  }

  /** The filter keeps each non-null value exactly as often as it occurs, so
      its length is the number of non-null elements. */
  lemma {:induction false} SomesCount<T(!new)>(xs: seq<Option<T>>)
    ensures forall x :: multiset(Somes(xs))[x] == multiset(xs)[Some(x)]
    ensures |Somes(xs)| == |xs| - multiset(xs)[None]
  {
    if xs != [] {
      SomesCount(xs[1..]);
      assert xs == [xs[0]] + xs[1..];
      assert multiset(xs) == multiset([xs[0]]) + multiset(xs[1..]);
    }
  }

  /** The filter keeps the order of what it keeps: filtering a concatenation
      is the concatenation of the filtered parts. */
  lemma {:induction false} SomesConcat<T>(a: seq<Option<T>>, b: seq<Option<T>>)
    ensures Somes(a + b) == Somes(a) + Somes(b)
  {
    if a == [] {
      assert a + b == b;
    } else {
      assert (a + b)[0] == a[0];
      assert (a + b)[1..] == a[1..] + b;
      SomesConcat(a[1..], b);
    }
  }

  /** Every non-null element survives the filter, and the filter keeps all
      elements exactly when none is null. */
  lemma {:induction false} SomesComplete<T>(xs: seq<Option<T>>)
    ensures forall i :: 0 <= i < |xs| && xs[i].Some? ==> xs[i].value in Somes(xs)
    ensures |Somes(xs)| == |xs| <==> forall i :: 0 <= i < |xs| ==> xs[i].Some?
  {
    if xs != [] {
      SomesComplete(xs[1..]);
      forall i | 0 <= i < |xs| && xs[i].Some? ensures xs[i].value in Somes(xs) {
        if i > 0 { assert xs[i] == xs[1..][i - 1]; }
      }
      if forall i :: 0 <= i < |xs| ==> xs[i].Some? {
        forall i | 0 <= i < |xs[1..]| ensures xs[1..][i].Some? {
          assert xs[1..][i] == xs[i + 1];
        }
      } else {
        var i :| 0 <= i < |xs| && xs[i].None?;
        if i > 0 { assert xs[1..][i - 1] == xs[i]; }
      }
    }
  }

  /** `validatedRecords`. */
  function ValidatedRecords(rows: seq<Row>, route: string, buckets: map<int, seq<UploadedFile>>,
                            parse: string -> Option<Json>): seq<PropertyRecord> {
    Somes(AssembleRows(rows, route, buckets, parse))
  }

  /** Row `i` of the map step is the record built from row `i` and exactly the
      files of bucket `i`. */
  lemma RowAssembly(rows: seq<Row>, route: string, files: seq<UploadedFile>,
                    parse: string -> Option<Json>, i: int)
    requires 0 <= i < |rows|
    ensures AssembleRows(rows, route, Grouping(files), parse)[i]
            == ValidateAndTransform(rows[i], route, Bucket(files, i), parse)
  {
    RowReceivesItsBucket(files, i);
  }

  /** At most one record per row, one per row whose record is not null, and
      every record stamped with the route. */
  lemma ValidatedRecordsFacts(rows: seq<Row>, route: string, buckets: map<int, seq<UploadedFile>>,
                              parse: string -> Option<Json>)
    ensures var recs := ValidatedRecords(rows, route, buckets, parse);
            && |recs| <= |rows|
            && (forall r :: r in recs ==> r.route == route)
            && (forall i :: 0 <= i < |rows| && ValidateAndTransform(rows[i], route, RowFiles(buckets, i), parse).Some? ==>
                  ValidateAndTransform(rows[i], route, RowFiles(buckets, i), parse).value in recs)
            && (|recs| == |rows| <==>
                  forall i :: 0 <= i < |rows| ==> ValidateAndTransform(rows[i], route, RowFiles(buckets, i), parse).Some?)
            && |recs| == |rows| - multiset(AssembleRows(rows, route, buckets, parse))[None]
            && (forall r :: multiset(recs)[r] == multiset(AssembleRows(rows, route, buckets, parse))[Some(r)])
  {
    var xs := AssembleRows(rows, route, buckets, parse);
    SomesComplete(xs);
    SomesCount(xs);
    forall i | 0 <= i < |rows|
      ensures xs[i] == ValidateAndTransform(rows[i], route, RowFiles(buckets, i), parse)
    {
    }
    forall r: PropertyRecord | r in Somes(xs) ensures r.route == route {
      var i :| 0 <= i < |xs| && xs[i] == Some(r);
    }
  }

  // ---------------------------------------------------------------------------
  // The request, its environment and the response
  // ---------------------------------------------------------------------------

  /** The multipart form fields. `file` is the CSV upload's text; a `File`
      object is always truthy, so only its absence is rejected. */
  datatype Request = Request(
    file: Option<string>,
    userId: Option<string>,
    routeName: Option<string>,
    systemInstruction: Option<string>,
    bgColor: Option<string>,
    appName: Option<string>,
    uploadedFiles: Option<string>)

  /** What `JSON.parse(uploadedFiles)` gives, as far as the grouping loop is
      concerned: text that is not JSON (the parse throws), a value `forEach`
      cannot walk (not an array, or an array holding `null`: the loop throws),
      or the descriptors. */
  datatype ParsedFiles =
    | NotJson
    | NotWalkable
    | Descriptors(files: seq<UploadedFile>)

  /** What the handler depends on but does not define: `JSON.parse` (for the
      CSV cells, and for `uploadedFiles`), the CSV parser, and whether the
      database accepts each insert. */
  datatype Env = Env(
    decodeFiles: string -> ParsedFiles,
    parseCsv: string -> Option<seq<Row>>,
    parseJson: string -> Option<Json>,
    chatbotInsertAccepted: bool,
    propertiesInsertAccepted: bool)

  /** Why the handler answered 500. */
  datatype Failure =
    | UploadedFilesUnparsable
    | ChatbotInsertRejected
    | UploadedFilesNotWalkable
    | CsvUnparsable
    | PropertiesInsertRejected

  datatype Response =
    | Uploaded(message: string, count: nat, route: string)
    | BadRequest(error: string)
    | ServerError(cause: Failure)

  function Status(r: Response): int {
    match r
    case Uploaded(_, _, _) => 200
    case BadRequest(_) => 400
    case ServerError(_) => 500
  }

  /** The row inserted into the `chatbot` table. */
  datatype ChatbotRow = ChatbotRow(
    route: string,
    chatbotInstruction: string,
    bgColor: Option<string>,
    appName: Option<string>,
    userId: string)

  /** A database insert that took effect. */
  datatype Write =
    | ChatbotInsert(bot: ChatbotRow)
    | PropertiesInsert(records: seq<PropertyRecord>)

  datatype Outcome = Outcome(response: Response, writes: seq<Write>)

  /** JavaScript truthiness of a form field: present and not empty. */
  predicate Truthy(v: Option<string>) {
    v.Some? && v.value != ""
  }

  /** The 400 message of the first missing required field, checked in the
      order `file`, `userId`, `routeName`, `systemInstruction`. */
  function MissingFieldError(req: Request): Option<string> {
    if req.file.None? then Some("No file uploaded")
    else if !Truthy(req.userId) then Some("Builder ID is required")
    else if !Truthy(req.routeName) then Some("Route name is required")
    else if !Truthy(req.systemInstruction) then Some("System instruction is required")
    else None
  }

  /** The parsed `uploadedFiles` field; absent or empty means no files. */
  function DecodedFiles(req: Request, env: Env): ParsedFiles {
    if Truthy(req.uploadedFiles) then env.decodeFiles(req.uploadedFiles.value) else Descriptors([])
  }

  function BotFor(req: Request): ChatbotRow
    requires MissingFieldError(req).None?
  {
    ChatbotRow(req.routeName.value, req.systemInstruction.value, req.bgColor, req.appName, req.userId.value)
  }

  /** What one `POST` answers and which inserts take effect, in order. */
  function Handle(req: Request, env: Env): Outcome {
    var files := DecodedFiles(req, env);
    if files.NotJson? then Outcome(ServerError(UploadedFilesUnparsable), [])
    else match MissingFieldError(req)
      case Some(msg) => Outcome(BadRequest(msg), [])
      case None =>
        var bot := BotFor(req);
        if !env.chatbotInsertAccepted then Outcome(ServerError(ChatbotInsertRejected), [])
        else if files.NotWalkable? then Outcome(ServerError(UploadedFilesNotWalkable), [ChatbotInsert(bot)])
        else match env.parseCsv(req.file.value)
          case None => Outcome(ServerError(CsvUnparsable), [ChatbotInsert(bot)])
          case Some(rows) =>
            var records := ValidatedRecords(rows, bot.route, Grouping(files.files), env.parseJson);
            if !env.propertiesInsertAccepted then Outcome(ServerError(PropertiesInsertRejected), [ChatbotInsert(bot)])
            else Outcome(Uploaded("Upload successful", |records|, bot.route),
                         [ChatbotInsert(bot), PropertiesInsert(records)])
  }

  // ---------------------------------------------------------------------------
  // Properties of the handler
  // ---------------------------------------------------------------------------

  /** `uploadedFiles` is parsed before any field is checked: when it does not
      parse, the answer is 500 whatever else is missing, and nothing is written. */
  lemma UnparsableFilesAnswer500(req: Request, env: Env)
    requires Truthy(req.uploadedFiles) && env.decodeFiles(req.uploadedFiles.value).NotJson?
    ensures Handle(req, env) == Outcome(ServerError(UploadedFilesUnparsable), [])
  {
  }

  /** With `uploadedFiles` that is JSON, a missing required field gives 400 with
      the message of the first missing field in the order `file`, `userId`,
      `routeName`, `systemInstruction`, and nothing is written; a 400 happens
      only then. */
  lemma RequiredFieldsInOrder(req: Request, env: Env)
    requires !DecodedFiles(req, env).NotJson?
    ensures var o := Handle(req, env);
            && (req.file.None? ==> o == Outcome(BadRequest("No file uploaded"), []))
            && (req.file.Some? && !Truthy(req.userId) ==>
                  o == Outcome(BadRequest("Builder ID is required"), []))
            && (req.file.Some? && Truthy(req.userId) && !Truthy(req.routeName) ==>
                  o == Outcome(BadRequest("Route name is required"), []))
            && (req.file.Some? && Truthy(req.userId) && Truthy(req.routeName) && !Truthy(req.systemInstruction) ==>
                  o == Outcome(BadRequest("System instruction is required"), []))
            && (o.response.BadRequest? <==>
                  !(req.file.Some? && Truthy(req.userId) && Truthy(req.routeName) && Truthy(req.systemInstruction)))
  {
  }

  /** The chatbot row is written before the records: the writes are a prefix
      of [chatbot, records], the records are written only after the chatbot
      insert succeeded, and both are written exactly when the answer is 200. */
  lemma ChatbotBeforeProperties(req: Request, env: Env)
    ensures var o := Handle(req, env);
            && |o.writes| <= 2
            && (|o.writes| >= 1 ==> o.writes[0].ChatbotInsert?)
            && (|o.writes| == 2 ==> o.writes[1].PropertiesInsert?)
            && (o.response.Uploaded? <==> |o.writes| == 2)
            && (o.response.BadRequest? ==> o.writes == [])
  {
  }

  /** A later failure does not undo the chatbot insert: `uploadedFiles` the
      grouping loop cannot walk, an unreadable CSV or a rejected records
      insert answers 500 with the chatbot row written. */
  lemma PartialFailureKeepsChatbot(req: Request, env: Env)
    requires Handle(req, env).response in
               {ServerError(UploadedFilesNotWalkable), ServerError(CsvUnparsable), ServerError(PropertiesInsertRejected)}
    ensures Handle(req, env).writes == [ChatbotInsert(BotFor(req))]
  {
  }

  /** JSON that is not a walkable array passes the parse and the field checks;
      the grouping loop then throws after the chatbot row is written. */
  lemma UnwalkableFilesFailAfterChatbot(req: Request, env: Env)
    requires Truthy(req.uploadedFiles) && env.decodeFiles(req.uploadedFiles.value).NotWalkable?
    ensures MissingFieldError(req).Some? ==> Handle(req, env) == Outcome(BadRequest(MissingFieldError(req).value), [])
    ensures MissingFieldError(req).None? && env.chatbotInsertAccepted ==>
              Handle(req, env) == Outcome(ServerError(UploadedFilesNotWalkable), [ChatbotInsert(BotFor(req))])
  {
  }

  /** On success the reported count is the number of records written, which is
      at most the number of CSV rows; every written record and the answer
      carry `routeName` unchanged, and row `i` holds exactly bucket `i`. */
  lemma SuccessReport(req: Request, env: Env, rows: seq<Row>)
    requires Handle(req, env).response.Uploaded?
    requires env.parseCsv(req.file.value) == Some(rows)
    ensures var o := Handle(req, env);
            var files := DecodedFiles(req, env).files;
            var built := seq(|rows|, i requires 0 <= i < |rows| =>
                           ValidateAndTransform(rows[i], req.routeName.value, Bucket(files, i), env.parseJson));
            && Status(o.response) == 200
            && o.response.message == "Upload successful"
            && o.response.route == req.routeName.value
            && o.writes[1] == PropertiesInsert(Somes(built))
            && o.response.count == |o.writes[1].records| == |rows| - multiset(built)[None]
            && o.response.count <= |rows|
            && (forall r :: r in o.writes[1].records ==> r.route == req.routeName.value)
  {
    var files := DecodedFiles(req, env).files;
    var route := req.routeName.value;
    var built := seq(|rows|, i requires 0 <= i < |rows| =>
                   ValidateAndTransform(rows[i], route, Bucket(files, i), env.parseJson));
    var recs := ValidatedRecords(rows, route, Grouping(files), env.parseJson);
    assert Handle(req, env) == Outcome(Uploaded("Upload successful", |recs|, route),
                                       [ChatbotInsert(BotFor(req)), PropertiesInsert(recs)]);
    ValidatedRecordsFacts(rows, route, Grouping(files), env.parseJson);
    forall i | 0 <= i < |rows|
      ensures AssembleRows(rows, route, Grouping(files), env.parseJson)[i] == built[i]
    {
      RowAssembly(rows, route, files, env.parseJson, i);
    }
    assert AssembleRows(rows, route, Grouping(files), env.parseJson) == built;
    assert recs == Somes(built);
  }

  // ---------------------------------------------------------------------------
  // The database and the handler as a sequence of steps
  // ---------------------------------------------------------------------------

  /** The two tables the handler writes to. */
  class Store {
    var chatbots: seq<ChatbotRow>
    var properties: seq<PropertyRecord>

    constructor ()
      ensures chatbots == [] && properties == []
    {
      chatbots := [];
      properties := [];
    }

    /** `supabase.from('chatbot').insert([...])`; `accepted` is the
        database's answer. */
    method InsertChatbot(bot: ChatbotRow, accepted: bool) returns (ok: bool)
      modifies this
      ensures ok == accepted
      ensures chatbots == old(chatbots) + (if accepted then [bot] else [])
      ensures properties == old(properties)
    {
      ok := accepted;
      if accepted {
        chatbots := chatbots + [bot];
      }
    }

    /** `supabase.from('properties').insert(records)`: all rows or none. */
    method InsertProperties(records: seq<PropertyRecord>, accepted: bool) returns (ok: bool)
      modifies this
      ensures ok == accepted
      ensures properties == old(properties) + (if accepted then records else [])
      ensures chatbots == old(chatbots)
    {
      ok := accepted;
      if accepted {
        properties := properties + records;
      }
    }
  }

  function ChatbotsWritten(ws: seq<Write>): seq<ChatbotRow> {
    if ws == [] then []
    else (if ws[0].ChatbotInsert? then [ws[0].bot] else []) + ChatbotsWritten(ws[1..])
  }

  function PropertiesWritten(ws: seq<Write>): seq<PropertyRecord> {
    if ws == [] then []
    else (if ws[0].PropertiesInsert? then ws[0].records else []) + PropertiesWritten(ws[1..])
  }

  /** The route handler: early returns on each failure, chatbot insert first,
      then grouping, CSV rows, and the records insert. */
  method Post(req: Request, env: Env, store: Store) returns (resp: Response)
    modifies store
    ensures resp == Handle(req, env).response
    ensures store.chatbots == old(store.chatbots) + ChatbotsWritten(Handle(req, env).writes)
    ensures store.properties == old(store.properties) + PropertiesWritten(Handle(req, env).writes)
  {
    var parsedFiles: ParsedFiles := Descriptors([]);
    if Truthy(req.uploadedFiles) {
      parsedFiles := env.decodeFiles(req.uploadedFiles.value);
      if parsedFiles.NotJson? {
        return ServerError(UploadedFilesUnparsable);
      }
    }

    if req.file.None? { return BadRequest("No file uploaded"); }
    if !Truthy(req.userId) { return BadRequest("Builder ID is required"); }
    if !Truthy(req.routeName) { return BadRequest("Route name is required"); }
    if !Truthy(req.systemInstruction) { return BadRequest("System instruction is required"); }

    var bot := BotFor(req);
    var ok := store.InsertChatbot(bot, env.chatbotInsertAccepted);
    if !ok { return ServerError(ChatbotInsertRejected); }
    assert ChatbotsWritten([ChatbotInsert(bot)]) == [bot];

    if parsedFiles.NotWalkable? { return ServerError(UploadedFilesNotWalkable); }
    var filesByPropertyIndex := GroupByPropertyIndex(parsedFiles.files);

    var records := env.parseCsv(req.file.value);
    if records.None? { return ServerError(CsvUnparsable); }

    var validatedRecords := ValidatedRecords(records.value, bot.route, filesByPropertyIndex, env.parseJson);
    ok := store.InsertProperties(validatedRecords, env.propertiesInsertAccepted);
    if !ok { return ServerError(PropertiesInsertRejected); }

    ghost var ws := [ChatbotInsert(bot), PropertiesInsert(validatedRecords)];
    assert ws[1..] == [PropertiesInsert(validatedRecords)] && ws[1..][1..] == [];
    assert PropertiesWritten(ws[1..]) == validatedRecords + PropertiesWritten([]);
    assert PropertiesWritten(ws) == validatedRecords;
    assert ChatbotsWritten(ws) == [bot];
    resp := Uploaded("Upload successful", |validatedRecords|, bot.route);
  }
}
