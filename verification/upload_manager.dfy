/** The upload manager: accepting one uploaded file per request, reporting
    on it, registering an uploaded file as in use (replacing another), marking
    files for deletion, and deciding whether a rendered file may be served.
    The database, the session, the file system and the signed-in user are
    inputs. */
module UploadManager {
  import opened Wrappers
  import opened Text

  /** The length of the file name column, in bytes. */
  const MaxFileLength: nat := 50

  const OnlyOnce: string := "'process' can only be called once."
  const NotProcessed: string := "'process' must have been called first."
  const ModelDeleted: string := "File model has been deleted!"
  const SessionChanged: string := "Session has changed between transactions!"
  const InvalidUploadPoint: string := "Invalid upload point."
  const FileNotFound: string := "File model could not be found."
  const NoUploadPoint: string :=
    "This file doesn't have an upload point. This probably means it was created externally and 'register' should not be used on it."
  const AlreadyRegistered: string := "This file has already been registered."
  const PointsDiffer: string :=
    "Upload points don't match. This could happen if a file was uploaded at one upload point and now the file with that id is being registered somewhere else."

  /** A PHP value as far as a strict (`===`) comparison sees it: the posted
      upload point id is a string, while a list of allowed ids may hold
      integers. */
  datatype PhpValue = PhpString(s: string) | PhpInt(i: int)

  /** The uploaded file: its name, whether a temporary file exists, and its
      size (`None` where `filesize` fails). */
  datatype PostedFile = PostedFile(name: string, tmpPresent: bool, size: Option<int>)

  /** One upload request. */
  datatype Upload = Upload(csrfValid: bool, uploadPointParam: Option<string>, file: Option<PostedFile>)

  /** What happens in the database and on disk once a file is acceptable:
      whether the record saves, whether it is found again with the same
      session in the second transaction, whether the file moves, and the
      new record's id. */
  datatype Storage = Storage(saved: bool, found: bool, sameSession: bool, moved: bool, id: int)

  /** The response data: nothing before `process`, a failure, or the
      stored file. */
  datatype ResponseData = NoData | Failed | Stored(id: int, fileName: string, fileSize: int)

  datatype Manager = Manager(processCalled: bool, data: ResponseData)

  const NewManager: Manager := Manager(false, NoData)

  /** The outcome of `process`: the manager afterwards and the result, an
      error standing for the exception thrown. */
  datatype Processed = Processed(m: Manager, result: Result<bool>)

  /** The index of the last occurrence of `c`. */
  function LastIndexOf(s: string, c: char): (r: Option<nat>)
    ensures r.Some? ==> r.value < |s| && s[r.value] == c
    ensures r.Some? ==> forall k :: r.value < k < |s| ==> s[k] != c
    ensures r.None? <==> c !in s
  {
    if |s| == 0 then None
    else if s[|s| - 1] == c then Some(|s| - 1)
    else
      var r := LastIndexOf(s[..|s| - 1], c);
      assert s == s[..|s| - 1] + [s[|s| - 1]];
      r
  }

  /** `pathinfo(name, PATHINFO_EXTENSION)` of a bare file name: what follows
      the last dot, or nothing without a dot. */
  function Extension(name: string): (e: string)
    ensures '.' !in e
    ensures '.' !in name ==> e == ""
    ensures '.' in name ==> |e| < |name| && name == name[..|name| - |e| - 1] + "." + e
  {
    match LastIndexOf(name, '.')
    case None => ""
    case Some(i) =>
      var e := name[i + 1..];
      assert name == name[..i] + "." + e;
      e
  }

  /** Every condition an upload must meet before anything is stored:
      a valid CSRF token; an upload point id, strictly among `allowed` when
      that list is given, naming an upload point; a file with a name of at
      most 50 bytes in UTF-8 and a temporary copy; an extension, lower-cased,
      among the upload point's; and a positive size. `points` maps each
      upload point to its file type's extensions. */
  predicate Acceptable(allowed: Option<seq<PhpValue>>, u: Upload, points: map<int, seq<string>>)
  {
    u.csrfValid
    && u.uploadPointParam.Some?
    && (allowed.None? || PhpString(u.uploadPointParam.value) in allowed.value)
    && IntVal(u.uploadPointParam.value) in points
    && u.file.Some?
    && Utf8Length(u.file.value.name) <= MaxFileLength
    && u.file.value.tmpPresent
    && ToLowerAscii(Extension(u.file.value.name)) in points[IntVal(u.uploadPointParam.value)]
    && u.file.value.size.Some?
    && u.file.value.size.value > 0
  }

  /** The file checks, once the upload point is known. */
  function FileChecks(f: Option<PostedFile>, extensions: seq<string>): (ok: bool)
  {
    if f.None? || Utf8Length(f.value.name) > MaxFileLength || !f.value.tmpPresent then false
    else
      var ext := ToLowerAscii(Extension(f.value.name));
      ext in extensions && f.value.size.Some? && f.value.size.value != 0 && f.value.size.value > 0
  }

  /** The request checks, in the order they are made. */
  function RequestChecks(allowed: Option<seq<PhpValue>>, u: Upload, points: map<int, seq<string>>): (ok: bool)
    ensures ok <==> Acceptable(allowed, u, points)
  {
    if !u.csrfValid || u.uploadPointParam.None? then false
    else if allowed.Some? && PhpString(u.uploadPointParam.value) !in allowed.value then false
    else
      var id := IntVal(u.uploadPointParam.value);
      if id !in points then false
      else FileChecks(u.file, points[id])
  }

  /** The name limit counts bytes, not characters: a name of 26 "é" is
      26 characters but 52 bytes and is refused, while 50 ASCII characters
      pass. */
  lemma NameLimitCountsBytes(extensions: seq<string>, size: int)
    ensures var f := PostedFile(seq(26, _ => 'é'), true, Some(size));
      |f.name| <= MaxFileLength && !FileChecks(Some(f), extensions)
    ensures var f := PostedFile(seq(50, _ => 'a'), true, Some(size));
      FileChecks(Some(f), extensions) <==> ToLowerAscii(Extension(f.name)) in extensions && size > 0
  {
    Utf8LengthRun('é', 26);
    Utf8LengthRun('a', 50);
  }

  /** `process`: once only; the response starts as a failure; an acceptable
      upload is stored when the record saves and the file moves, and the
      response then carries the new id, the name and the size. */
  function Process(m: Manager, allowed: Option<seq<PhpValue>>, u: Upload, points: map<int, seq<string>>, store: Storage): (r: Processed)
    ensures m.processCalled ==> r == Processed(m, Err(OnlyOnce))
    ensures !m.processCalled ==> r.m.processCalled
    ensures r.result == Ok(true) <==> !m.processCalled && r.m.data.Stored?
    ensures r.result == Ok(true) ==>
              Acceptable(allowed, u, points) && store.saved && store.found && store.sameSession && store.moved
              && r.m.data == Stored(store.id, u.file.value.name, u.file.value.size.value)
    ensures (!m.processCalled && Acceptable(allowed, u, points)
             && store.saved && store.found && store.sameSession && store.moved) ==> r.result == Ok(true)
    ensures !m.processCalled && !Acceptable(allowed, u, points) ==> r == Processed(Manager(true, Failed), Ok(false))
  {
    if m.processCalled then Processed(m, Err(OnlyOnce))
    else
      var failed := Manager(true, Failed);
      if !RequestChecks(allowed, u, points) then Processed(failed, Ok(false))
      else if !store.saved then Processed(failed, Ok(false))
      else if !store.found then Processed(failed, Err(ModelDeleted))
      else if !store.sameSession then Processed(failed, Err(SessionChanged))
      else if !store.moved then Processed(failed, Ok(false))
      else Processed(Manager(true, Stored(store.id, u.file.value.name, u.file.value.size.value)), Ok(true))
  }

  /** Whatever the first call did, a second call throws and changes
      nothing. */
  lemma ProcessOnce(allowed: Option<seq<PhpValue>>, u: Upload, points: map<int, seq<string>>, store: Storage,
                    allowed': Option<seq<PhpValue>>, u': Upload, points': map<int, seq<string>>, store': Storage)
    ensures var first := Process(NewManager, allowed, u, points, store);
      Process(first.m, allowed', u', points', store') == Processed(first.m, Err(OnlyOnce))
  {
  }

  /** Because the comparison is strict, a list of integer ids admits no
      upload: the posted id is always a string. */
  lemma IntegerIdsAdmitNothing(m: Manager, ids: seq<int>, u: Upload, points: map<int, seq<string>>, store: Storage)
    ensures var allowed := seq(|ids|, k requires 0 <= k < |ids| => PhpInt(ids[k]));
      Process(m, Some(allowed), u, points, store).result != Ok(true)
  {
    var allowed := seq(|ids|, k requires 0 <= k < |ids| => PhpInt(ids[k]));
    if u.uploadPointParam.Some? {
      assert PhpString(u.uploadPointParam.value) !in allowed;
    }
  }

  /** `getResponse`: the response data, once `process` has run. */
  function GetResponse(m: Manager): (r: Result<ResponseData>)
    ensures r.Err? <==> !m.processCalled
    ensures r.Ok? ==> r.value == m.data
  {
    if !m.processCalled then Err(NotProcessed) else Ok(m.data)
  }

  datatype Info = Info(fileName: string, fileSize: int)

  /** `getInfo`: the stored file's name and size, or `None` when the upload
      failed; an error before `process` has run. */
  function GetInfo(m: Manager): (r: Result<Option<Info>>)
    ensures r.Err? <==> !m.processCalled
    ensures r.Ok? ==> (r.value.Some? <==> m.data.Stored?)
    ensures r.Ok? && r.value.Some? ==> r.value.value == Info(m.data.fileName, m.data.fileSize)
  {
    if !m.processCalled then Err(NotProcessed)
    else if m.data.Stored? then Ok(Some(Info(m.data.fileName, m.data.fileSize)))
    else Ok(None)
  }

  /** After `process`, `getInfo` gives the posted name and size exactly when
      `process` returned true. */
  lemma InfoIffSuccess(allowed: Option<seq<PhpValue>>, u: Upload, points: map<int, seq<string>>, store: Storage)
    ensures var p := Process(NewManager, allowed, u, points, store);
      GetInfo(p.m).Ok?
      && (GetInfo(p.m).value.Some? <==> p.result == Ok(true))
      && (p.result == Ok(true) ==> GetInfo(p.m).value == Some(Info(u.file.value.name, u.file.value.size.value)))
  {
  }

  /** A stored file record. */
  datatype FileRec = FileRec(uploadPoint: Option<int>, inUse: bool, readyForDelete: bool)

  type Files = map<int, FileRec>

  /** `delete`'s argument: one file or a list, each possibly null. */
  datatype Targets = One(file: Option<int>) | Many(files: seq<Option<int>>)

  function AsList(t: Targets): seq<Option<int>>
  {
    match t
    case One(f) => [f]
    case Many(fs) => fs
  }

  /** Marks every named file for deletion; nulls are skipped. */
  function MarkAll(files: Files, ts: seq<Option<int>>): (r: Files)
    ensures r.Keys == files.Keys
    ensures forall k :: k in r ==> r[k].uploadPoint == files[k].uploadPoint && r[k].inUse == files[k].inUse
    ensures forall k :: k in r ==> (r[k].readyForDelete <==> files[k].readyForDelete || Some(k) in ts)
  {
    if |ts| == 0 then files
    else
      var rest := MarkAll(files, ts[1..]);
      assert forall x :: x in ts <==> x == ts[0] || x in ts[1..];
      if ts[0].Some? && ts[0].value in rest then rest[ts[0].value := rest[ts[0].value].(readyForDelete := true)]
      else rest
  }

  /** `delete`: a single file is treated as a list of one. */
  function Delete(files: Files, t: Targets): (r: Files)
    ensures r.Keys == files.Keys
    ensures forall k :: k in r ==> r[k].uploadPoint == files[k].uploadPoint && r[k].inUse == files[k].inUse
    ensures forall k :: k in r ==> (r[k].readyForDelete <==> files[k].readyForDelete || Some(k) in AsList(t))
  {
    MarkAll(files, AsList(t))
  }

  /** Which files are marked depends only on the non-null entries, and one
      file is the same as a list holding it. */
  lemma DeleteIgnoresNulls(files: Files, fs: seq<Option<int>>, f: Option<int>)
    ensures Delete(files, Many(fs)) == Delete(files, Many(fs + [None]))
    ensures Delete(files, One(f)) == Delete(files, Many([f]))
    ensures Delete(files, One(None)) == files
  {
    var a := Delete(files, Many(fs));
    var b := Delete(files, Many(fs + [None]));
    assert forall k :: Some(k) in fs + [None] <==> Some(k) in fs;
    forall k | k in a
      ensures a[k] == b[k]
    {
    }
    assert a == b;
    var c := Delete(files, One(None));
    forall k | k in c
      ensures c[k] == files[k]
    {
    }
  }

  /** Deleting twice marks nothing more. */
  lemma DeleteIdempotent(files: Files, t: Targets)
    ensures Delete(Delete(files, t), t) == Delete(files, t)
  {
    var a := Delete(files, t);
    var b := Delete(a, t);
    forall k | k in a
      ensures b[k] == a[k]
    {
    }
  }

  const SaveError: string := "Error saving file model."

  /** `register`: checks the upload point, returns the file to replace
      untouched when it is the same file, otherwise checks the file, marks
      it in use and marks the replaced file for deletion, both in one
      transaction. The result is the registered file's id, `None` when no
      file id was given. `saved` is whether the file record saves; when it
      does not, the transaction is rolled back and nothing changes. */
  function Register(points: set<int>, uploadPointId: int, fileId: Option<string>, replace: Option<int>,
                    files: Files, saved: bool): (r: Result<(Option<int>, Files)>)
    ensures uploadPointId !in points ==> r == Err(InvalidUploadPoint)
    ensures uploadPointId in points && replace.Some? && fileId.Some? && replace.value == IntVal(fileId.value) ==>
              r == Ok((replace, files))
    ensures r.Ok? && r.value.0.Some? ==> fileId.Some? && r.value.0.value == IntVal(fileId.value)
    ensures r.Ok? && fileId.None? ==> r.value.0.None?
    ensures r == Err(SaveError) <==>
              uploadPointId in points && fileId.Some? && replace != Some(IntVal(fileId.value))
              && IntVal(fileId.value) in files && files[IntVal(fileId.value)].uploadPoint == Some(uploadPointId)
              && !files[IntVal(fileId.value)].inUse && !saved
  {
    if uploadPointId !in points then Err(InvalidUploadPoint)
    else if replace.Some? && fileId.Some? && replace.value == IntVal(fileId.value) then Ok((replace, files))
    else if fileId.Some? then
      var id := IntVal(fileId.value);
      if id !in files then Err(FileNotFound)
      else if files[id].uploadPoint.None? then Err(NoUploadPoint)
      else if files[id].inUse then Err(AlreadyRegistered)
      else if files[id].uploadPoint.value != uploadPointId then Err(PointsDiffer)
      else if !saved then Err(SaveError)
      else Ok((Some(id), Delete(files[id := files[id].(inUse := true)], One(replace))))
    else Ok((None, Delete(files, One(replace))))
  }

  /** The errors, in the order they are checked, the failed save last. */
  lemma RegisterErrors(points: set<int>, uploadPointId: int, fileId: string, replace: Option<int>, files: Files, saved: bool)
    requires uploadPointId in points && replace != Some(IntVal(fileId))
    ensures var id := IntVal(fileId);
      var r := Register(points, uploadPointId, Some(fileId), replace, files, saved);
      (id !in files ==> r == Err(FileNotFound))
      && (id in files && files[id].uploadPoint.None? ==> r == Err(NoUploadPoint))
      && (id in files && files[id].uploadPoint.Some? && files[id].inUse ==> r == Err(AlreadyRegistered))
      && ((id in files && files[id].uploadPoint.Some? && !files[id].inUse
           && files[id].uploadPoint.value != uploadPointId) ==> r == Err(PointsDiffer))
      && (r.Ok? <==> id in files && files[id].uploadPoint == Some(uploadPointId) && !files[id].inUse && saved)
  {
  }

  /** What a successful registration of a new file rests on, and what it
      returns. */
  lemma RegisterOkValue(points: set<int>, uploadPointId: int, fileId: string, replace: Option<int>, files: Files, saved: bool)
    requires replace != Some(IntVal(fileId))
    requires Register(points, uploadPointId, Some(fileId), replace, files, saved).Ok?
    ensures var id := IntVal(fileId);
      uploadPointId in points && id in files && !files[id].inUse && files[id].uploadPoint == Some(uploadPointId)
      && Register(points, uploadPointId, Some(fileId), replace, files, saved).value
         == (Some(id), Delete(files[id := files[id].(inUse := true)], One(replace)))
  {
  }

  /** A successful registration of a new file marks it in use, marks the
      replaced file (and nothing else) for deletion, and leaves every other
      record as it was. A registered file cannot be registered again. */
  lemma RegisterMarks(points: set<int>, uploadPointId: int, fileId: string, replace: Option<int>, files: Files, saved: bool)
    requires replace != Some(IntVal(fileId))
    requires Register(points, uploadPointId, Some(fileId), replace, files, saved).Ok?
    ensures var id := IntVal(fileId);
      var files' := Register(points, uploadPointId, Some(fileId), replace, files, saved).value.1;
      files'.Keys == files.Keys
      && files'[id].inUse && !files[id].inUse
      && (forall k :: k in files && k != id ==> files'[k].inUse == files[k].inUse)
      && (forall k :: k in files ==> (files'[k].readyForDelete <==> files[k].readyForDelete || Some(k) == replace))
      && Register(points, uploadPointId, Some(fileId), None, files', saved) == Err(AlreadyRegistered)
  {
    RegisterOkValue(points, uploadPointId, fileId, replace, files, saved);
    var id := IntVal(fileId);
    var marked := files[id := files[id].(inUse := true)];
    var files' := Delete(marked, One(replace));
    assert files'.Keys == files.Keys by {
      assert marked.Keys == files.Keys;
    }
    forall k | k in files
      ensures files'[k].inUse == marked[k].inUse
      ensures files'[k].readyForDelete <==> files[k].readyForDelete || Some(k) == replace
    {
    }
    assert files'[id].inUse;
    RegisterErrors(points, uploadPointId, fileId, None, files', saved);
  }

  /** Registering no file only removes the file it replaces. */
  lemma RegisterNothing(points: set<int>, uploadPointId: int, replace: Option<int>, files: Files, saved: bool)
    requires uploadPointId in points
    ensures Register(points, uploadPointId, None, replace, files, saved) == Ok((None, Delete(files, One(replace))))
  {
  }

  /** What owns a source file: a media item through its banner, cover or
      cover art; a media item's video; a playlist through its banner, cover
      or cover art. */
  datatype Owner =
    | ItemImage(accessible: bool)
    | ItemVideo(itemAccessible: bool, live: bool)
    | PlaylistImage(accessible: bool, public: bool)

  /** The relations of a source file, each possibly null. */
  datatype SourceFile = SourceFile(
    itemBanner: Option<bool>,
    itemCover: Option<bool>,
    itemCoverArt: Option<bool>,
    itemVideo: Option<(bool, bool)>,
    playlistBanner: Option<(bool, bool)>,
    playlistCover: Option<(bool, bool)>,
    playlistCoverArt: Option<(bool, bool)>)

  /** A rendered file: its id, whether processing finished, and its source
      file. */
  datatype Requested = Requested(id: int, finished: bool, source: Option<SourceFile>)

  /** `getFile`: the requested file when it has finished processing, has a
      source file, and the first owner the source file has allows access;
      `None` otherwise. The permissions are false with nobody signed in. */
  function GetFile(req: Option<Requested>, mediaItemsPerm: bool, playlistsPerm: bool): (r: Option<int>)
    ensures r.Some? ==> req.Some? && req.value.finished && req.value.source.Some? && r.value == req.value.id
  {
    if req.None? || !req.value.finished then None
    else if req.value.source.None? then None
    else
      var sf := req.value.source.value;
      var allowed :=
        if sf.itemBanner.Some? then sf.itemBanner.value
        else if sf.itemCover.Some? then sf.itemCover.value
        else if sf.itemCoverArt.Some? then sf.itemCoverArt.value
        else if sf.itemVideo.Some? then sf.itemVideo.value.0 && (sf.itemVideo.value.1 || mediaItemsPerm)
        else if sf.playlistBanner.Some? then sf.playlistBanner.value.0 && (sf.playlistBanner.value.1 || playlistsPerm)
        else if sf.playlistCover.Some? then sf.playlistCover.value.0 && (sf.playlistCover.value.1 || playlistsPerm)
        else if sf.playlistCoverArt.Some? then sf.playlistCoverArt.value.0 && (sf.playlistCoverArt.value.1 || playlistsPerm)
        else false;
      if allowed then Some(req.value.id) else None
  }

  /** The owners in the order they are consulted. */
  function Owners(sf: SourceFile): (os: seq<Option<Owner>>)
    ensures |os| == 7
  {
    [ if sf.itemBanner.Some? then Some(ItemImage(sf.itemBanner.value)) else None,
      if sf.itemCover.Some? then Some(ItemImage(sf.itemCover.value)) else None,
      if sf.itemCoverArt.Some? then Some(ItemImage(sf.itemCoverArt.value)) else None,
      if sf.itemVideo.Some? then Some(ItemVideo(sf.itemVideo.value.0, sf.itemVideo.value.1)) else None,
      if sf.playlistBanner.Some? then Some(PlaylistImage(sf.playlistBanner.value.0, sf.playlistBanner.value.1)) else None,
      if sf.playlistCover.Some? then Some(PlaylistImage(sf.playlistCover.value.0, sf.playlistCover.value.1)) else None,
      if sf.playlistCoverArt.Some? then Some(PlaylistImage(sf.playlistCoverArt.value.0, sf.playlistCoverArt.value.1)) else None ]
  }

  /** The first owner present. */
  function FirstOwner(os: seq<Option<Owner>>): (r: Option<Owner>)
    ensures r.Some? ==> r in os
    ensures r.None? <==> forall i :: 0 <= i < |os| ==> os[i].None?
  {
    if |os| == 0 then None
    else if os[0].Some? then os[0]
    else
      assert forall i :: 1 <= i < |os| ==> os[i] == os[1..][i - 1];
      FirstOwner(os[1..])
  }

  /** Whether an owner lets the viewer have the file. */
  predicate Allows(o: Owner, mediaItemsPerm: bool, playlistsPerm: bool)
  {
    match o
    case ItemImage(accessible) => accessible
    case ItemVideo(itemAccessible, live) => itemAccessible && (live || mediaItemsPerm)
    case PlaylistImage(accessible, public) => accessible && (public || playlistsPerm)
  }

  /** Access is decided by the first owner present alone; a source file
      without owners is never served. */
  lemma GetFileFirstOwner(req: Requested, mediaItemsPerm: bool, playlistsPerm: bool)
    requires req.finished && req.source.Some?
    ensures var first := FirstOwner(Owners(req.source.value));
      (GetFile(Some(req), mediaItemsPerm, playlistsPerm).Some?
       <==> first.Some? && Allows(first.value, mediaItemsPerm, playlistsPerm))
  {
    var os := Owners(req.source.value);
    if os[0].Some? { FirstOwnerIs(os, 0); }
    else if os[1].Some? { FirstOwnerIs(os, 1); }
    else if os[2].Some? { FirstOwnerIs(os, 2); }
    else if os[3].Some? { FirstOwnerIs(os, 3); }
    else if os[4].Some? { FirstOwnerIs(os, 4); }
    else if os[5].Some? { FirstOwnerIs(os, 5); }
    else if os[6].Some? { FirstOwnerIs(os, 6); }
  }

  /** Two source files whose owners agree up to the first one present give
      the same answer, whatever follows. */
  lemma LaterOwnersIgnored(req: Requested, sf': SourceFile, i: nat, mediaItemsPerm: bool, playlistsPerm: bool)
    requires req.finished && req.source.Some?
    requires i < 7 && Owners(req.source.value)[i].Some?
    requires Owners(req.source.value)[..i + 1] == Owners(sf')[..i + 1]
    requires forall j :: 0 <= j < i ==> Owners(req.source.value)[j].None?
    ensures GetFile(Some(req), mediaItemsPerm, playlistsPerm) == GetFile(Some(req.(source := Some(sf'))), mediaItemsPerm, playlistsPerm)
  {
    var os := Owners(req.source.value);
    var os' := Owners(sf');
    assert os[i] == os'[i];
    forall j | 0 <= j < i
      ensures os'[j].None?
    {
      assert os[..i + 1][j] == os'[..i + 1][j];
    }
    FirstOwnerIs(os, i);
    FirstOwnerIs(os', i);
    GetFileFirstOwner(req, mediaItemsPerm, playlistsPerm);
    GetFileFirstOwner(req.(source := Some(sf')), mediaItemsPerm, playlistsPerm);
  }

  /** The first owner is the one at the first index holding one. */
  lemma {:induction false} FirstOwnerIs(os: seq<Option<Owner>>, i: nat)
    requires i < |os| && os[i].Some?
    requires forall j :: 0 <= j < i ==> os[j].None?
    ensures FirstOwner(os) == os[i]
  {
    if i > 0 {
      FirstOwnerIs(os[1..], i - 1);
    }
  }
}
