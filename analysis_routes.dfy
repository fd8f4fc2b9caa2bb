/** The `/api/analysis` router: the upload pipeline in front of `POST /:type` (field name, file
    filter, size limit, stored filename), the create handler over the record collection and the
    upload directory, and the two read handlers `GET /history` and `GET /:id`. The caller is the
    identity the authentication middleware attached; clocks and fresh ObjectIds are parameters. */
module AnalysisRoutes {
  import opened Common
  import opened Kinds
  import opened AnalysisModel

  // ----- path.extname -----

  /** Index of the last `c` in `s`, or -1. */
  function LastIndexOf(s: string, c: char): (r: int)
    ensures -1 <= r < |s|
    ensures r >= 0 ==> s[r] == c
    ensures forall j :: r < j < |s| ==> s[j] != c
    decreases |s|
  {
    if s == [] then -1
    else if s[|s| - 1] == c then |s| - 1
    else LastIndexOf(s[..|s| - 1], c)
  }

  lemma {:induction false} LastIndexOfAppend(a: string, b: string, c: char)
    requires forall i :: 0 <= i < |b| ==> b[i] != c
    ensures LastIndexOf(a + b, c) == LastIndexOf(a, c)
    decreases |b|
  {
    if b != [] {
      assert (a + b)[..|a + b| - 1] == a + b[..|b| - 1];
      LastIndexOfAppend(a, b[..|b| - 1], c);
    } else {
      assert a + b == a;
    }
  }

  /** The path with its trailing separators removed. */
  function TrimTrailingSlashes(s: string): (r: string)
    ensures IsPrefix(r, s)
    ensures r == [] || r[|r| - 1] != '/'
    ensures forall i :: |r| <= i < |s| ==> s[i] == '/'
    decreases |s|
  {
    if s != [] && s[|s| - 1] == '/' then TrimTrailingSlashes(s[..|s| - 1]) else s
  }

  /** What follows the last separator. */
  function LastSegment(s: string): (r: string)
    ensures forall i :: 0 <= i < |r| ==> r[i] != '/'
  {
    s[LastIndexOf(s, '/') + 1..]
  }

  /** `path.extname`: from the last `.` of the last path segment to its end; empty when the
      segment has no `.`, when its only `.` is its first character, or when it is `..`. */
  function ExtName(path: string): (r: string)
    ensures r == [] || r[0] == '.'
    ensures forall i :: 1 <= i < |r| ==> r[i] != '.' && r[i] != '/'
  {
    var seg := LastSegment(TrimTrailingSlashes(path));
    var d := LastIndexOf(seg, '.');
    if d <= 0 || seg == ".." then "" else seg[d..]
  }

  lemma LastSegmentAppend(stem: string, ext: string)
    requires forall i :: 0 <= i < |ext| ==> ext[i] != '/'
    ensures LastSegment(stem + ext) == LastSegment(stem) + ext
  {
    LastIndexOfAppend(stem, ext, '/');
    var k := LastIndexOf(stem, '/');
    assert (stem + ext)[k + 1..] == stem[k + 1..] + ext;
  }

  lemma LastDotOfExtension(head: string, ext: string)
    requires |ext| > 0 && ext[0] == '.'
    requires forall i :: 1 <= i < |ext| ==> ext[i] != '.'
    ensures LastIndexOf(head + ext, '.') == |head|
  {
    var dotted := head + ['.'];
    assert LastIndexOf(dotted, '.') == |head|;
    LastIndexOfAppend(dotted, ext[1..], '.');
    assert dotted + ext[1..] == head + ext;
  }

  /** A file called `stem + ext` has extension `ext`, for an extension of one `.` followed by
      at least one character that is neither `.` nor `/`, and a stem not ending in `/`. */
  lemma ExtNameOfAppended(stem: string, ext: string)
    requires |stem| > 0 && stem[|stem| - 1] != '/'
    requires |ext| > 1 && ext[0] == '.'
    requires forall i :: 1 <= i < |ext| ==> ext[i] != '.' && ext[i] != '/'
    ensures ExtName(stem + ext) == ext
  {
    var p := stem + ext;
    assert p[|p| - 1] == ext[|ext| - 1];
    assert TrimTrailingSlashes(p) == p;
    LastSegmentAppend(stem, ext);
    var head := LastSegment(stem);
    assert LastIndexOf(stem, '/') < |stem| - 1;
    assert |head| > 0;
    var seg := head + ext;
    LastDotOfExtension(head, ext);
    assert seg[|seg| - 1] != '.';
    assert seg[|head|..] == ext;
  }

  // ----- the upload pipeline, `upload.single('image')` -----

  /** `/jpeg|jpg|png/`. */
  const AllowedPatterns: seq<string> := ["jpeg", "jpg", "png"]

  /** `allowedTypes.test(s)`: the regular expression is not anchored, so any occurrence counts. */
  predicate AllowedTypesTest(s: string) {
    Contains(s, "jpeg") || Contains(s, "jpg") || Contains(s, "png")
  }

  ghost predicate MentionsAllowedType(s: string) {
    exists p, i :: p in AllowedPatterns && OccursAt(s, p, i)
  }

  lemma AllowedTypesTestIff(s: string)
    ensures AllowedTypesTest(s) <==> MentionsAllowedType(s)
  {
    ContainsIff(s, "jpeg");
    ContainsIff(s, "jpg");
    ContainsIff(s, "png");
  }

  /** One file part of a multipart request as multer reports it: the form-field name, the
      client's file name, the MIME type and the byte count. */
  datatype FilePart = FilePart(field: string, originalName: string, mimetype: string, size: nat)

  datatype FilterDecision = Accept | Reject(message: string)

  const FilterMessage := "Only support jpeg, jpg or png"

  /** The `fileFilter`: the lower-cased extension and the reported MIME type must each contain
      `jpeg`, `jpg` or `png` somewhere. */
  function FileFilter(f: FilePart): (r: FilterDecision)
    ensures r == Accept <==>
      MentionsAllowedType(ToLower(ExtName(f.originalName))) && MentionsAllowedType(f.mimetype)
    ensures r != Accept ==> r == Reject(FilterMessage)
  {
    AllowedTypesTestIff(ToLower(ExtName(f.originalName)));
    AllowedTypesTestIff(f.mimetype);
    if AllowedTypesTest(ToLower(ExtName(f.originalName))) && AllowedTypesTest(f.mimetype) then Accept
    else Reject(FilterMessage)
  }

  /** Text without lower-case letters contains no pattern that starts with one. */
  lemma {:induction false} NoLowerContainsNothingLower(s: string, sub: string)
    requires |sub| > 0 && IsAsciiLower(sub[0])
    requires forall i :: 0 <= i < |s| ==> !IsAsciiLower(s[i])
    ensures !Contains(s, sub)
    decreases |s|
  {
    if |s| > 0 {
      if |sub| <= |s| {
        assert s[..|sub|][0] == s[0];
      }
      NoLowerContainsNothingLower(s[1..], sub);
    }
  }

  /** Text with `jpg` right after its first character mentions an allowed type. */
  lemma MentionsJpgAtOne(e: string)
    requires |e| >= 4 && e[1] == 'j' && e[2] == 'p' && e[3] == 'g'
    ensures MentionsAllowedType(e)
  {
    assert e[1..4] == "jpg";
    assert "jpg" in AllowedPatterns && OccursAt(e, "jpg", 1);
  }

  /** The test is a substring test: an extension that merely starts with `jpg`, such as
      `.jpgx`, passes. */
  lemma FilterAcceptsExtensionContainingJpg(field: string, stem: string, tail: string, mimetype: string, size: nat)
    requires |stem| > 0 && stem[|stem| - 1] != '/'
    requires forall i :: 0 <= i < |tail| ==> tail[i] != '.' && tail[i] != '/' && !IsAsciiUpper(tail[i])
    requires MentionsAllowedType(mimetype)
    ensures FileFilter(FilePart(field, stem + (".jpg" + tail), mimetype, size)) == Accept
  {
    var ext := ".jpg" + tail;
    assert ext[1] == 'j' && ext[2] == 'p' && ext[3] == 'g';
    ExtNameOfAppended(stem, ext);
    MentionsJpgAtOne(ToLower(ext));
  }

  /** The extension is lower-cased before the test: `photo.JPG` passes. */
  lemma FilterLowersExtension(field: string, stem: string, mimetype: string, size: nat)
    requires |stem| > 0 && stem[|stem| - 1] != '/'
    requires MentionsAllowedType(mimetype)
    ensures FileFilter(FilePart(field, stem + ".JPG", mimetype, size)) == Accept
  {
    var ext := ".JPG";
    assert ext[1] == 'J' && ext[2] == 'P' && ext[3] == 'G';
    ExtNameOfAppended(stem, ext);
    MentionsJpgAtOne(ToLower(ext));
  }

  /** The filter does not lower-case `file.mimetype` itself: a reported MIME type without
      lower-case letters is rejected whatever the file is called. */
  lemma FilterRejectsUpperCaseMimetype(f: FilePart)
    requires forall i :: 0 <= i < |f.mimetype| ==> !IsAsciiLower(f.mimetype[i])
    ensures FileFilter(f) == Reject(FilterMessage)
  {
    NoLowerContainsNothingLower(f.mimetype, "jpeg");
    NoLowerContainsNothingLower(f.mimetype, "jpg");
    NoLowerContainsNothingLower(f.mimetype, "png");
  }

  /** `limits.fileSize`: 5 MiB. */
  const MaxFileSize: nat := 5 * 1024 * 1024

  /** The disk-storage `filename` callback: `Date.now() + path.extname(file.originalname)`. */
  function StoredFilename(now: nat, originalName: string): (r: string)
    ensures IsPrefix(DecimalText(now), r)
    ensures ExtName(r) == ExtName(originalName)
  {
    ExtNameAfterDigits(DecimalText(now), ExtName(originalName));
    DecimalText(now) + ExtName(originalName)
  }

  /** `path.extname` of a single segment without trailing separator. */
  lemma ExtNameOfSegment(p: string)
    requires |p| > 0 && forall i :: 0 <= i < |p| ==> p[i] != '/'
    ensures ExtName(p) == var d := LastIndexOf(p, '.'); if d <= 0 || p == ".." then "" else p[d..]
  {
    assert TrimTrailingSlashes(p) == p;
    assert LastIndexOf(p, '/') == -1;
  }

  /** Decimal digits followed by an extension have that extension. */
  lemma ExtNameAfterDigits(d: string, e: string)
    requires |d| > 0 && AllDigits(d)
    requires e == [] || e[0] == '.'
    requires forall i :: 1 <= i < |e| ==> e[i] != '.' && e[i] != '/'
    ensures ExtName(d + e) == e
  {
    var p := d + e;
    assert forall i :: 0 <= i < |p| ==> p[i] != '/' by {
      forall i | 0 <= i < |p| ensures p[i] != '/' {
        if i < |d| {
          assert IsDigit(d[i]);
        } else {
          assert p[i] == e[i - |d|];
        }
      }
    }
    ExtNameOfSegment(p);
    assert p[0] == d[0] && IsDigit(p[0]) && p != "..";
    if e == [] {
      assert p == d;
      assert LastIndexOf(d, '.') < 0 by {
        var k := LastIndexOf(d, '.');
        assert k >= 0 ==> IsDigit(d[k]);
      }
    } else {
      LastDotOfExtension(d, e);
      assert p[|d|..] == e;
    }
  }

  /** Two stored files have the same name only if they were stored in the same millisecond with
      the same extension. */
  lemma StoredFilenameInjective(t1: nat, n1: string, t2: nat, n2: string)
    requires StoredFilename(t1, n1) == StoredFilename(t2, n2)
    ensures t1 == t2 && ExtName(n1) == ExtName(n2)
  {
    var d1, d2 := DecimalText(t1), DecimalText(t2);
    var e1, e2 := ExtName(n1), ExtName(n2);
    var f := d1 + e1;
    assert |d1| < |f| ==> f[|d1|] == '.';
    assert |d2| < |f| ==> f[|d2|] == '.';
    assert forall i :: 0 <= i < |d2| ==> IsDigit(f[i]);
    assert |d1| == |d2|;
    assert d1 == f[..|d1|] == d2;
    DecimalInjective(t1, t2);
  }

  /** `/uploads/${req.file.filename}`. */
  function ImageUrl(filename: string): (r: string)
    ensures IsPrefix("/uploads/", r) && r[|"/uploads/"|..] == filename
  {
    "/uploads/" + filename
  }

  datatype StoredFile = StoredFile(originalName: string, mimetype: string, size: nat, filename: string)

  /** What the upload middleware hands on: no file (`req.file` undefined), a file written to
      `uploads/`, or an error passed to `next`. */
  datatype UploadResult = NoFile | Received(file: StoredFile) | UploadFailed(reason: string)

  /** multer skips a file part with an empty file name (what a form with an empty file input
      sends) before any other check, so the handler sees no file. */
  function Receive(part: Option<FilePart>, now: nat): (r: UploadResult)
    ensures part.None? || part.value.originalName == "" ==> r == NoFile
    ensures r.Received? <==>
      part.Some? && part.value.originalName != "" && part.value.field == "image"
      && FileFilter(part.value) == Accept && part.value.size <= MaxFileSize
    ensures r.Received? ==>
      r.file.filename == StoredFilename(now, part.value.originalName)
      && r.file.originalName == part.value.originalName && r.file.mimetype == part.value.mimetype
      && r.file.size == part.value.size
    ensures part.Some? && part.value.originalName != "" && part.value.field != "image" ==>
      r == UploadFailed("Unexpected field")
    ensures part.Some? && part.value.originalName != "" && part.value.field == "image" && FileFilter(part.value) != Accept ==>
      r == UploadFailed(FilterMessage)
    ensures (part.Some? && part.value.originalName != "" && part.value.field == "image"
             && FileFilter(part.value) == Accept && part.value.size > MaxFileSize) ==>
      r == UploadFailed("File too large")
  {
    match part
    case None => NoFile
    case Some(p) =>
      if p.originalName == "" then NoFile
      else if p.field != "image" then UploadFailed("Unexpected field")
      else match FileFilter(p)
        case Reject(m) => UploadFailed(m)
        case Accept =>
          if p.size > MaxFileSize then UploadFailed("File too large")
          else Received(StoredFile(p.originalName, p.mimetype, p.size, StoredFilename(now, p.originalName)))
  }

  // ----- responses -----

  datatype Body = ErrorBody(error: string) | RecordBody(record: Analysis) | ListBody(records: seq<Analysis>)

  datatype Response = Response(status: nat, body: Body)

  /** The application's error middleware, which answers every error passed to `next`. */
  const ServerError := Response(500, ErrorBody("Something went wrong!"))

  /** The placeholder results the create handler stores. */
  function ProcessedResults(now: nat): (r: Json)
    ensures IsProcessed(r) && r.JObj? && ("timestamp", JDate(now)) in r.fields
  {
    var r := JObj([("processed", JBool(true)), ("timestamp", JDate(now))]);
    assert r.fields[0] == ("processed", JBool(true));
    r
  }

  /** `results.processed === true`. */
  predicate IsProcessed(results: Json) {
    results.JObj? && exists i :: 0 <= i < |results.fields| && results.fields[i] == ("processed", JBool(true))
  }

  /** The directory multer writes accepted files into. */
  class UploadDir {
    var files: set<string>

    constructor ()
      ensures files == {}
    {
      files := {};
    }
  }

  /** The `POST /:type` handler, given what the upload middleware handed on (never a failure:
      those go to the error middleware instead). */
  method HandleCreate(
    db: AnalysisCollection, caller: ObjectId, typeParam: string, upload: UploadResult,
    handlerTime: nat, newId: ObjectId, saveTime: nat, fault: bool)
    returns (resp: Response)
    requires db.Valid() && !upload.UploadFailed?
    modifies db
    ensures db.Valid()
    ensures Parse(typeParam).None? ==> resp == Response(400, ErrorBody("Invalid analysis type"))
    ensures upload.NoFile? && Parse(typeParam).Some? ==> resp == Response(400, ErrorBody("No image provided"))
    ensures upload.Received? && Parse(typeParam).Some? && (fault || UsesId(old(db.records), newId)) ==>
      resp == Response(400, ErrorBody("Error creating analysis"))
    ensures resp.status == 201 <==>
      upload.Received? && Parse(typeParam).Some? && !fault && !UsesId(old(db.records), newId)
    ensures resp.status != 201 ==> db.records == old(db.records)
    ensures resp.status == 201 ==>
      && resp.body.RecordBody?
      && db.records == old(db.records) + [resp.body.record]
      && resp.body.record.id == newId
      && resp.body.record.userId == caller
      && resp.body.record.kind == Parse(typeParam).value
      && resp.body.record.imageUrl == ImageUrl(upload.file.filename)
      && IsProcessed(resp.body.record.results)
      && resp.body.record.createdAt == saveTime
  {
    var kind := Parse(typeParam);
    if kind.None? {
      return Response(400, ErrorBody("Invalid analysis type"));
    }
    if upload.NoFile? {
      return Response(400, ErrorBody("No image provided"));
    }
    var imageUrl := ImageUrl(upload.file.filename);
    var results := ProcessedResults(handlerTime);
    var draft := Draft(Some(caller), Some(typeParam), Some(imageUrl), Some(results));
    assert ValidationErrors(draft) == {};
    var saved := db.Insert(draft, newId, saveTime, fault);
    if saved.NotSaved? {
      return Response(400, ErrorBody("Error creating analysis"));
    }
    ParseName(saved.record.kind);
    resp := Response(201, RecordBody(saved.record));
  }

  /** `POST /:type`. The upload middleware runs first, so a rejected file never reaches the
      type check; an accepted file stays in `uploads/` whatever the handler answers. */
  method CreateAnalysis(
    db: AnalysisCollection, dir: UploadDir, caller: ObjectId, typeParam: string,
    part: Option<FilePart>, uploadTime: nat, handlerTime: nat, newId: ObjectId, saveTime: nat,
    fault: bool)
    returns (resp: Response)
    requires db.Valid()
    modifies db, dir
    ensures db.Valid()
    ensures Receive(part, uploadTime).UploadFailed? ==>
      resp == ServerError && db.records == old(db.records) && dir.files == old(dir.files)
    ensures Receive(part, uploadTime).Received? ==>
      dir.files == old(dir.files) + {Receive(part, uploadTime).file.filename}
    ensures Receive(part, uploadTime).NoFile? ==> dir.files == old(dir.files)
    ensures !Receive(part, uploadTime).UploadFailed? && Parse(typeParam).None? ==>
      resp == Response(400, ErrorBody("Invalid analysis type")) && db.records == old(db.records)
    ensures Receive(part, uploadTime).NoFile? && Parse(typeParam).Some? ==>
      resp == Response(400, ErrorBody("No image provided")) && db.records == old(db.records)
    ensures Receive(part, uploadTime).Received? && Parse(typeParam).Some? && (fault || UsesId(old(db.records), newId)) ==>
      resp == Response(400, ErrorBody("Error creating analysis")) && db.records == old(db.records)
    ensures resp.status == 201 <==>
      Receive(part, uploadTime).Received? && Parse(typeParam).Some? && !fault && !UsesId(old(db.records), newId)
    ensures resp.status != 201 ==> db.records == old(db.records)
    ensures resp.status == 201 ==>
      && resp.body.RecordBody?
      && db.records == old(db.records) + [resp.body.record]
      && resp.body.record.id == newId
      && resp.body.record.userId == caller
      && resp.body.record.kind == Parse(typeParam).value
      && resp.body.record.imageUrl == ImageUrl(Receive(part, uploadTime).file.filename)
      && IsProcessed(resp.body.record.results)
      && resp.body.record.createdAt == saveTime
  {
    var upload := Receive(part, uploadTime);
    if upload.UploadFailed? {
      return ServerError;
    }
    if upload.Received? {
      dir.files := dir.files + {upload.file.filename};
    }
    resp := HandleCreate(db, caller, typeParam, upload, handlerTime, newId, saveTime, fault);
  }

  // ----- GET /history -----

  /** `Analysis.find({ userId })`: the caller's records, in collection order. */
  function Owned(records: seq<Analysis>, user: ObjectId): (r: seq<Analysis>)
    ensures |r| <= |records|
    ensures forall i :: 0 <= i < |r| ==> r[i] in records && r[i].userId == user
  {
    if records == [] then []
    else
      var rest := Owned(records[1..], user);
      assert forall x :: x in records[1..] ==> x in records;
      if records[0].userId == user then [records[0]] + rest else rest
  }

  /** The query keeps every record of the owner, as often as it occurs, and nothing else. */
  lemma {:induction false} OwnedCounts(records: seq<Analysis>, user: ObjectId)
    ensures forall x :: multiset(Owned(records, user))[x] == if x.userId == user then multiset(records)[x] else 0
  {
    if records != [] {
      OwnedCounts(records[1..], user);
      assert records == [records[0]] + records[1..];
    }
  }

  lemma OwnedMembers(records: seq<Analysis>, user: ObjectId)
    ensures forall x :: x in Owned(records, user) <==> x in records && x.userId == user
  {
    OwnedCounts(records, user);
    forall x ensures x in Owned(records, user) <==> x in records && x.userId == user {
      assert x in Owned(records, user) <==> x in multiset(Owned(records, user));
      assert x in records <==> x in multiset(records);
    }
  }

  ghost predicate NewestFirstOrder(s: seq<Analysis>) {
    forall i, j :: 0 <= i < j < |s| ==> s[i].createdAt >= s[j].createdAt
  }

  /** Places `x` before the first record that is not newer than it. */
  function InsertByAge(x: Analysis, s: seq<Analysis>): seq<Analysis> {
    if s == [] || s[0].createdAt <= x.createdAt then [x] + s
    else [s[0]] + InsertByAge(x, s[1..])
  }

  lemma {:induction false} InsertByAgeCounts(x: Analysis, s: seq<Analysis>)
    ensures multiset(InsertByAge(x, s)) == multiset(s) + multiset{x}
  {
    if s != [] && s[0].createdAt > x.createdAt {
      InsertByAgeCounts(x, s[1..]);
      assert s == [s[0]] + s[1..];
    }
  }

  /** Inserting keeps every record at or below a bound that `x` and `s` are at or below. */
  lemma {:induction false} InsertByAgeBelow(x: Analysis, s: seq<Analysis>, bound: int)
    requires x.createdAt <= bound
    requires forall k :: 0 <= k < |s| ==> s[k].createdAt <= bound
    ensures forall j :: 0 <= j < |InsertByAge(x, s)| ==> InsertByAge(x, s)[j].createdAt <= bound
  {
    if s != [] && s[0].createdAt > x.createdAt {
      InsertByAgeBelow(x, s[1..], bound);
    }
  }

  /** A newest-first list stays newest first under a head at least as new as all of it. */
  lemma ConsNewestFirst(h: Analysis, rest: seq<Analysis>)
    requires NewestFirstOrder(rest)
    requires forall j :: 0 <= j < |rest| ==> rest[j].createdAt <= h.createdAt
    ensures NewestFirstOrder([h] + rest)
  {
    var r := [h] + rest;
    forall i, j | 0 <= i < j < |r| ensures r[i].createdAt >= r[j].createdAt {
      assert r[j] == rest[j - 1];
      if i > 0 {
        assert r[i] == rest[i - 1];
      }
    }
  }

  lemma {:induction false} InsertByAgeOrdered(x: Analysis, s: seq<Analysis>)
    requires NewestFirstOrder(s)
    ensures NewestFirstOrder(InsertByAge(x, s))
  {
    if s == [] || s[0].createdAt <= x.createdAt {
      ConsNewestFirst(x, s);
    } else {
      InsertByAgeOrdered(x, s[1..]);
      InsertByAgeBelow(x, s[1..], s[0].createdAt);
      ConsNewestFirst(s[0], InsertByAge(x, s[1..]));
    }
  }

  /** `.sort({ createdAt: -1 })`; records with equal timestamps keep collection order. */
  function SortNewestFirst(s: seq<Analysis>): (r: seq<Analysis>)
    ensures multiset(r) == multiset(s)
    ensures NewestFirstOrder(r)
  {
    if s == [] then []
    else
      var rest := SortNewestFirst(s[1..]);
      InsertByAgeCounts(s[0], rest);
      InsertByAgeOrdered(s[0], rest);
      assert s == [s[0]] + s[1..];
      InsertByAge(s[0], rest)
  }

  /** `.limit(20)`. */
  const HistoryLimit: nat := 20

  function Take(s: seq<Analysis>, n: nat): seq<Analysis> {
    if |s| <= n then s else s[..n]
  }

  /** What `GET /history` lists: at most twenty of the caller's records, newest first, and no
      record of the caller's that is left out is newer than one that is listed. */
  function History(records: seq<Analysis>, user: ObjectId): (r: seq<Analysis>)
    ensures |r| == if |Owned(records, user)| < HistoryLimit then |Owned(records, user)| else HistoryLimit
    ensures forall i :: 0 <= i < |r| ==> r[i] in records && r[i].userId == user
    ensures forall i, j :: 0 <= i < j < |r| ==> r[i].createdAt >= r[j].createdAt
    ensures multiset(r) <= multiset(Owned(records, user))
    ensures |Owned(records, user)| <= HistoryLimit ==> multiset(r) == multiset(Owned(records, user))
    ensures forall x, y :: x in records && x.userId == user && x !in r && y in r ==> x.createdAt <= y.createdAt
  {
    var owned := Owned(records, user);
    var sorted := SortNewestFirst(owned);
    var r := Take(sorted, HistoryLimit);
    OwnedMembers(records, user);
    HistoryWindow(owned, sorted, r);
    r
  }

  /** The first `|r|` records of a newest-first permutation of `owned`. */
  lemma HistoryWindow(owned: seq<Analysis>, sorted: seq<Analysis>, r: seq<Analysis>)
    requires multiset(sorted) == multiset(owned) && NewestFirstOrder(sorted)
    requires r == Take(sorted, HistoryLimit)
    ensures |r| == if |owned| < HistoryLimit then |owned| else HistoryLimit
    ensures forall i :: 0 <= i < |r| ==> r[i] in owned
    ensures NewestFirstOrder(r)
    ensures multiset(r) <= multiset(owned)
    ensures |owned| <= HistoryLimit ==> multiset(r) == multiset(owned)
    ensures forall x, y :: x in owned && x !in r && y in r ==> x.createdAt <= y.createdAt
  {
    assert |sorted| == |owned| by {
      assert |multiset(sorted)| == |multiset(owned)|;
    }
    var rest := sorted[|r|..];
    assert sorted == r + rest;
    assert multiset(sorted) == multiset(r) + multiset(rest);
    forall i | 0 <= i < |r| ensures r[i] in owned {
      assert r[i] in multiset(sorted);
    }
    forall x, y | x in owned && x !in r && y in r ensures x.createdAt <= y.createdAt {
      assert x in multiset(sorted);
      assert x in multiset(rest);
      var k :| 0 <= k < |rest| && rest[k] == x;
      var i :| 0 <= i < |r| && r[i] == y;
      assert sorted[|r| + k] == x && sorted[i] == y;
    }
  }

  /** Appending a record newer than every stored one: every other record is older. */
  lemma OthersOlder(records: seq<Analysis>, a: Analysis)
    requires forall i :: 0 <= i < |records| ==> records[i].createdAt < a.createdAt
    ensures forall y :: y in records + [a] && y != a ==> y.createdAt < a.createdAt
  {
    var all := records + [a];
    forall y | y in all && y != a ensures y.createdAt < a.createdAt {
      var i :| 0 <= i < |all| && all[i] == y;
      assert i < |records| && records[i] == y;
    }
  }

  /** A newest-first list drawn from `pool`, in which every record but `a` is older than `a`,
      starts with `a` when it lists `a` or lists nothing older than `a`. */
  lemma NewestHeads(h: seq<Analysis>, pool: seq<Analysis>, a: Analysis)
    requires |h| > 0 && forall i :: 0 <= i < |h| ==> h[i] in pool
    requires forall i, j :: 0 <= i < j < |h| ==> h[i].createdAt >= h[j].createdAt
    requires forall y :: y in pool && y != a ==> y.createdAt < a.createdAt
    requires a in h || forall y :: y in h ==> a.createdAt <= y.createdAt
    ensures h[0] == a
  {
    if a in h {
      var k :| 0 <= k < |h| && h[k] == a;
      if k > 0 {
        assert h[0].createdAt >= h[k].createdAt;
      }
    } else {
      assert h[0] in h;
    }
  }

  /** A record created after every record in the collection heads its owner's history. */
  lemma NewRecordHeadsHistory(records: seq<Analysis>, a: Analysis)
    requires forall i :: 0 <= i < |records| ==> records[i].createdAt < a.createdAt
    ensures |History(records + [a], a.userId)| > 0 && History(records + [a], a.userId)[0] == a
  {
    var all := records + [a];
    OwnedMembers(all, a.userId);
    assert a in Owned(all, a.userId);
    var h := History(all, a.userId);
    OthersOlder(records, a);
    NewestHeads(h, all, a);
  }

  /** `GET /history`. */
  function HistoryResponse(records: seq<Analysis>, caller: ObjectId, fault: bool): (r: Response)
    ensures fault ==> r == Response(400, ErrorBody("Error fetching analysis history"))
    ensures !fault ==> r == Response(200, ListBody(History(records, caller)))
    ensures !fault ==> |r.body.records| <= HistoryLimit
    ensures r.body.ListBody? ==> forall i :: 0 <= i < |r.body.records| ==> r.body.records[i].userId == caller
  {
    if fault then Response(400, ErrorBody("Error fetching analysis history"))
    else Response(200, ListBody(History(records, caller)))
  }

  // ----- GET /:id -----

  /** `Analysis.findOne({ _id, userId })`: the first record matching both. */
  function FindOwned(records: seq<Analysis>, id: ObjectId, user: ObjectId): (r: Option<Analysis>)
    ensures r.Some? ==> r.value in records && r.value.id == id && r.value.userId == user
    ensures r.None? <==> forall i :: 0 <= i < |records| ==> !(records[i].id == id && records[i].userId == user)
  {
    if records == [] then None
    else if records[0].id == id && records[0].userId == user then Some(records[0])
    else
      var r := FindOwned(records[1..], id, user);
      assert forall i :: 1 <= i < |records| ==> records[i] == records[1..][i - 1];
      r
  }

  /** `GET /:id`: a record is returned only when it has that id and belongs to the caller. */
  function ByIdResponse(records: seq<Analysis>, caller: ObjectId, idParam: string, fault: bool): (r: Response)
    ensures CastObjectId(idParam).None? || fault ==> r == Response(400, ErrorBody("Error fetching analysis"))
    ensures r.status == 404 <==>
      CastObjectId(idParam).Some? && !fault && FindOwned(records, CastObjectId(idParam).value, caller).None?
    ensures r.status == 404 ==> r.body == ErrorBody("Analysis not found")
    ensures r.status == 200 <==> r.body.RecordBody?
    ensures r.body.RecordBody? ==>
      r.body.record in records && r.body.record.userId == caller
      && CastObjectId(idParam) == Some(r.body.record.id)
  {
    match CastObjectId(idParam)
    case None => Response(400, ErrorBody("Error fetching analysis"))
    case Some(id) =>
      if fault then Response(400, ErrorBody("Error fetching analysis"))
      else match FindOwned(records, id, caller)
        case None => Response(404, ErrorBody("Analysis not found"))
        case Some(a) => Response(200, RecordBody(a))
  }

  lemma {:induction false} FindOwnedAppend(records: seq<Analysis>, a: Analysis)
    requires !UsesId(records, a.id)
    ensures FindOwned(records + [a], a.id, a.userId) == Some(a)
  {
    if records == [] {
      assert records + [a] == [a];
    } else {
      assert (records + [a])[1..] == records[1..] + [a];
      assert records[0].id != a.id;
      assert !UsesId(records[1..], a.id) by {
        forall i | 0 <= i < |records[1..]| ensures records[1..][i].id != a.id {
          assert records[1..][i] == records[i + 1];
        }
      }
      FindOwnedAppend(records[1..], a);
    }
  }

  /** The `_id` a successful create echoes fetches that same record for its owner. */
  lemma CreatedRecordIsFetchable(records: seq<Analysis>, a: Analysis)
    requires !UsesId(records, a.id)
    ensures ByIdResponse(records + [a], a.userId, a.id, false) == Response(200, RecordBody(a))
  {
    CastCanonical(a.id);
    FindOwnedAppend(records, a);
  }

  /** The segment `history` is not an ObjectId, so were `GET /:id` tried first it would answer
      400; the router therefore has to register `GET /history` before it. */
  lemma HistoryIsNotAnId()
    ensures CastObjectId("history").None?
    ensures ByIdResponse([], AnalysisModel.ObjectIdZero, "history", false).status == 400
  {
  }

  /** The segment reaches the history route when it is `history` in any letter case: the router
      is created with its default options, which match paths case-insensitively (for the ASCII
      letters of `history`). */
  predicate IsHistorySegment(segment: string) {
    ToLower(segment) == "history"
  }

  /** `GET /history` is registered before `GET /:id`, so a segment that spells `history` in any
      case lists the caller's records and every other segment is looked up as an id. */
  function GetResponse(records: seq<Analysis>, caller: ObjectId, segment: string, fault: bool): (r: Response)
    ensures IsHistorySegment(segment) ==> r == HistoryResponse(records, caller, fault)
    ensures IsHistorySegment(segment) && !fault ==> r.status == 200 && r.body == ListBody(History(records, caller))
    ensures !IsHistorySegment(segment) ==> r == ByIdResponse(records, caller, segment, fault)
    ensures r.body.RecordBody? ==>
      !IsHistorySegment(segment) && r.body.record.userId == caller && CastObjectId(segment) == Some(r.body.record.id)
    ensures r.status == 404 ==> !IsHistorySegment(segment)
  {
    if IsHistorySegment(segment) then HistoryResponse(records, caller, fault)
    else ByIdResponse(records, caller, segment, fault)
  }

  /** The capitalised segment `History` reaches the history route too. */
  lemma CapitalisedHistoryIsHistory(records: seq<Analysis>, caller: ObjectId)
    ensures GetResponse(records, caller, "History", false) == Response(200, ListBody(History(records, caller)))
  {
    assert ToLower("History") == [LowerChar('H')] + "istory";
  }
}
