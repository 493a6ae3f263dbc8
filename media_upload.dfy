/**
 * The media upload dialog: a queue of picked files, each classified by its MIME type and given
 * editable metadata, a drag-highlight flag, and the hand-over of the queue to the page.
 */
module MediaUpload {
  import opened Optional
  import opened Seqs

  /** A file as the browser hands it over; the MIME type may be missing. */
  datatype PickedFile = PickedFile(name: string, size: int, mimeType: Option<string>)

  /** One queue entry; `id` is `Date.now() + index` at the moment the files were added. */
  datatype QueuedFile = QueuedFile(
    id: int,
    name: string,
    size: int,
    fileType: string,
    category: string,
    description: string,
    tags: seq<string>)

  /** `getFileType`: the media kind from the MIME type's prefix, 'document' for anything else. */
  function FileType(mimeType: Option<string>): (r: string)
    ensures r == "image" <==> mimeType.Some? && "image/" <= mimeType.value
    ensures r == "video" <==> mimeType.Some? && "video/" <= mimeType.value
    ensures r == "audio" <==> mimeType.Some? && "audio/" <= mimeType.value
    ensures r == "document" <==>
      !(mimeType.Some? && ("image/" <= mimeType.value || "video/" <= mimeType.value || "audio/" <= mimeType.value))
  {
    match mimeType
    case None => "document"
    case Some(m) =>
      PrefixesExclusive(m);
      if "image/" <= m then "image"
      else if "video/" <= m then "video"
      else if "audio/" <= m then "audio"
      else "document"
  }

  /** A type starts with at most one of the three prefixes: they differ in the first letter. */
  lemma PrefixesExclusive(m: string)
    ensures !("image/" <= m && "video/" <= m)
    ensures !("image/" <= m && "audio/" <= m)
    ensures !("video/" <= m && "audio/" <= m)
  {
    if "image/" <= m {
      assert m[0] == 'i';
    }
    if "video/" <= m {
      assert m[0] == 'v';
    }
  }

  /** Examples of the classification, a missing type included. */
  lemma FileTypeExamples()
    ensures FileType(Some("image/png")) == "image" && FileType(Some("video/mp4")) == "video"
    ensures FileType(Some("audio/mpeg")) == "audio"
    ensures FileType(Some("application/pdf")) == "document" && FileType(None) == "document"
  {
    assert "image/" <= "image/png";
    assert "video/" <= "video/mp4";
    assert "audio/" <= "audio/mpeg";
    var pdf := "application/pdf";
    assert pdf[0] == 'a' && pdf[1] == 'p';
  }

  /** The entries `handleFiles` makes: category 'worship', no description, no tags. */
  function Queued(files: seq<PickedFile>, now: int): (r: seq<QueuedFile>)
    ensures |r| == |files|
    ensures forall i :: 0 <= i < |files| ==>
      (&& r[i].id == now + i && r[i].name == files[i].name && r[i].size == files[i].size
       && r[i].fileType == FileType(files[i].mimeType)
       && r[i].category == "worship" && r[i].description == "" && r[i].tags == [])
  {
    seq(|files|, i requires 0 <= i < |files| =>
      QueuedFile(now + i, files[i].name, files[i].size, FileType(files[i].mimeType), "worship", "", []))
  }

  /** The two fields the dialog lets the user edit on a queued file. */
  datatype FileEdit = SetCategory(category: string) | SetDescription(description: string)

  function ApplyFileEdit(f: QueuedFile, e: FileEdit): (r: QueuedFile)
    ensures r.id == f.id && r.name == f.name && r.size == f.size && r.fileType == f.fileType && r.tags == f.tags
    ensures r.category == (if e.SetCategory? then e.category else f.category)
    ensures r.description == (if e.SetDescription? then e.description else f.description)
  {
    match e
    case SetCategory(v) => f.(category := v)
    case SetDescription(v) => f.(description := v)
  }

  /** `updateFileData(fileId, field, value)`: only the entries with that id take the edit. */
  function UpdateFileData(files: seq<QueuedFile>, fileId: int, e: FileEdit): (r: seq<QueuedFile>)
    ensures |r| == |files|
    ensures forall i :: 0 <= i < |files| && files[i].id != fileId ==> r[i] == files[i]
    ensures forall i :: 0 <= i < |files| && files[i].id == fileId ==> r[i] == ApplyFileEdit(files[i], e)
  {
    Map(files, (f: QueuedFile) => if f.id == fileId then ApplyFileEdit(f, e) else f)
  }

  /** `removeFile(fileId)`. */
  function RemoveFile(files: seq<QueuedFile>, fileId: int): (r: seq<QueuedFile>)
    ensures forall i :: 0 <= i < |r| ==> r[i] in files && r[i].id != fileId
    ensures forall i :: 0 <= i < |files| && files[i].id != fileId ==> files[i] in r
    ensures multiset(r) <= multiset(files)
  {
    Filter(files, OtherId(fileId))
  }

  function OtherId(fileId: int): QueuedFile -> bool {
    (f: QueuedFile) => f.id != fileId
  }

  /** Removing a file keeps the others in their order: it is the queue minus that id. */
  lemma RemoveFileKeepsOrder(a: seq<QueuedFile>, x: QueuedFile, b: seq<QueuedFile>)
    requires forall i :: 0 <= i < |a| ==> a[i].id != x.id
    requires forall i :: 0 <= i < |b| ==> b[i].id != x.id
    ensures RemoveFile(a + [x] + b, x.id) == a + b
  {
    var p := OtherId(x.id);
    forall y | y in a ensures p(y) {
      var i :| 0 <= i < |a| && a[i] == y;
    }
    forall y | y in b ensures p(y) {
      var i :| 0 <= i < |b| && b[i] == y;
    }
    FilterDropsOne(a, x, b, p);
  }

  datatype DragEvent = DragEnter | DragOver | DragLeave

  class Uploader {
    var dragActive: bool
    var uploadFiles: seq<QueuedFile>

    constructor ()
      ensures !dragActive && uploadFiles == []
    {
      dragActive := false;
      uploadFiles := [];
    }

    /** `handleFiles`: the picked files go after the queued ones, in order. */
    method AddFiles(files: seq<PickedFile>, now: int)
      modifies this
      ensures uploadFiles == old(uploadFiles) + Queued(files, now)
      ensures dragActive == old(dragActive)
      ensures files != [] ==> CanUpload()
    {
      uploadFiles := uploadFiles + Queued(files, now);
    }

    /** `handleDrag`: enter and over raise the highlight, leave lowers it. */
    method Drag(e: DragEvent)
      modifies this
      ensures dragActive <==> e != DragLeave
      ensures uploadFiles == old(uploadFiles)
    {
      if e == DragEnter || e == DragOver {
        dragActive := true;
      } else if e == DragLeave {
        dragActive := false;
      }
    }

    /** `handleDrop`: the highlight goes off; the files are added only when there is one at least. */
    method Drop(files: seq<PickedFile>, now: int)
      modifies this
      ensures !dragActive
      ensures files == [] ==> uploadFiles == old(uploadFiles)
      ensures files != [] ==> uploadFiles == old(uploadFiles) + Queued(files, now)
    {
      dragActive := false;
      if |files| > 0 {
        AddFiles(files, now);
      }
    }

    method UpdateFile(fileId: int, e: FileEdit)
      modifies this
      ensures uploadFiles == UpdateFileData(old(uploadFiles), fileId, e)
      ensures dragActive == old(dragActive)
    {
      uploadFiles := UpdateFileData(uploadFiles, fileId, e);
    }

    method Remove(fileId: int)
      modifies this
      ensures uploadFiles == RemoveFile(old(uploadFiles), fileId)
      ensures dragActive == old(dragActive)
    {
      uploadFiles := RemoveFile(uploadFiles, fileId);
    }

    /** The upload button is enabled only with something queued. */
    function CanUpload(): (b: bool)
      reads this
      ensures b <==> uploadFiles != []
    {
      |uploadFiles| > 0
    }

    /** The completion of `handleUpload`: the whole queue goes to the page and the queue empties. */
    method Complete() returns (sent: seq<QueuedFile>)
      modifies this
      ensures sent == old(uploadFiles) && uploadFiles == []
      ensures dragActive == old(dragActive)
      ensures !CanUpload()
    {
      sent := uploadFiles;
      uploadFiles := [];
    }

    /**
     * A click on the upload button: while nothing is queued the button is disabled and the click
     * does nothing; otherwise, once the upload completes, the whole queue goes to the page.
     */
    method ClickUpload() returns (sent: Option<seq<QueuedFile>>)
      modifies this
      ensures sent.Some? <==> old(uploadFiles) != []
      ensures sent.Some? ==> sent.value == old(uploadFiles) && uploadFiles == []
      ensures sent.None? ==> uploadFiles == old(uploadFiles)
      ensures dragActive == old(dragActive)
    {
      if CanUpload() {
        var files := Complete();
        sent := Some(files);
      } else {
        sent := None;
      }
    }
  }
}
