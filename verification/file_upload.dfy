/**
 The upload widget: picked files are checked against the size limit, appended to the list, and
 valid ones advance ten percent per timer tick until they are done. Timers and random ids are left
 to the caller: a tick is an explicit call and ids come in as a parameter.
 */
module FileUpload {
  import opened Options
  import opened Text

  datatype Status = Uploading | Success | Failed

  /** A file the user picked: its name, size in bytes and MIME type. */
  datatype Picked = Picked(name: string, size: nat, mimeType: string)

  /** An entry of the upload list. */
  datatype UploadedFile = UploadedFile(
    id: string,
    name: string,
    size: nat,
    mimeType: string,
    status: Status,
    progress: nat,
    error: Option<string>)

  const DefaultMaxMb: nat := 10
  const Step: nat := 10
  const Done: nat := 100

  /** The limit in bytes for a limit of `maxMb` megabytes. */
  function SizeLimit(maxMb: nat): nat {
    maxMb * 1024 * 1024
  }

  /** The message of a file that is too large, e.g. `File exceeds 10MB limit`. */
  function LimitMessage(maxMb: nat): string {
    "File exceeds " + NatToString(maxMb) + "MB limit"
  }

  /** A new list entry: at zero progress, uploading when it fits the limit and failed with the limit message otherwise. */
  function NewUpload(f: Picked, id: string, maxMb: nat): (r: UploadedFile)
    ensures r.id == id && r.name == f.name && r.size == f.size && r.mimeType == f.mimeType
    ensures r.progress == 0
    ensures r.status == Uploading <==> f.size <= SizeLimit(maxMb)
    ensures r.status != Success
    ensures r.error.Some? <==> r.status == Failed
    ensures r.error.Some? ==> r.error.value == LimitMessage(maxMb)
  {
    if f.size <= SizeLimit(maxMb) then UploadedFile(id, f.name, f.size, f.mimeType, Uploading, 0, None)
    else UploadedFile(id, f.name, f.size, f.mimeType, Failed, 0, Some(LimitMessage(maxMb)))
  }

  /** `processFiles`: one new entry per picked file, in the order picked, after the existing ones. */
  function ProcessFiles(files: seq<UploadedFile>, picked: seq<Picked>, ids: seq<string>, maxMb: nat): (r: seq<UploadedFile>)
    requires |ids| == |picked|
    ensures |r| == |files| + |picked|
    ensures r[..|files|] == files
    ensures forall i :: 0 <= i < |picked| ==> r[|files| + i] == NewUpload(picked[i], ids[i], maxMb)
  {
    files + seq(|picked|, i requires 0 <= i < |picked| => NewUpload(picked[i], ids[i], maxMb))
  }

  /** One timer tick for upload `id`: its entries gain ten points up to a hundred and succeed at a hundred; the rest are untouched. */
  function Tick(files: seq<UploadedFile>, id: string): (r: seq<UploadedFile>)
    ensures |r| == |files|
    ensures forall i :: 0 <= i < |files| && files[i].id != id ==> r[i] == files[i]
    ensures forall i :: 0 <= i < |files| && files[i].id == id ==>
      r[i].progress == (if files[i].progress + Step < Done then files[i].progress + Step else Done)
      && (r[i].status == Success <==> r[i].progress == Done)
      && r[i].status != Failed
      && r[i] == files[i].(progress := r[i].progress, status := r[i].status)
  {
    seq(|files|, i requires 0 <= i < |files| => Advance(files[i], id))
  }

  function Advance(f: UploadedFile, id: string): UploadedFile {
    if f.id != id then f
    else
      var p := if f.progress + Step < Done then f.progress + Step else Done;
      f.(progress := p, status := if p == Done then Success else Uploading)
  }

  /** `n` ticks for upload `id`: entries keep their place, id and name, and other uploads are untouched. */
  function Ticks(files: seq<UploadedFile>, id: string, n: nat): (r: seq<UploadedFile>)
    ensures |r| == |files|
    ensures forall i :: 0 <= i < |files| ==> r[i].id == files[i].id && r[i].name == files[i].name
    ensures forall i :: 0 <= i < |files| && files[i].id != id ==> r[i] == files[i]
  {
    if n == 0 then files else Tick(Ticks(files, id, n - 1), id)
  }

  /**
   After `n` ticks an entry of the upload is at `progress + 10n`, capped at a hundred, and has
   succeeded exactly when it got there; other entries are untouched. A new upload therefore takes
   ten ticks, after which its timer stops.
   */
  lemma {:induction false} TicksProgress(files: seq<UploadedFile>, id: string, n: nat, i: nat)
    requires n > 0 && i < |files|
    ensures files[i].id != id ==> Ticks(files, id, n)[i] == files[i]
    ensures files[i].id == id ==>
      Ticks(files, id, n)[i].progress == (if files[i].progress + Step * n < Done then files[i].progress + Step * n else Done)
      && (Ticks(files, id, n)[i].status == Success <==> Ticks(files, id, n)[i].progress == Done)
      && Ticks(files, id, n)[i].name == files[i].name && Ticks(files, id, n)[i].id == id
  {
    var prev := Ticks(files, id, n - 1);
    assert Ticks(files, id, n) == Tick(prev, id);
    if n > 1 {
      TicksProgress(files, id, n - 1, i);
      assert Step * n == Step * (n - 1) + Step;
    }
  }

  /** `removeFile`: every entry with that id goes, the others stay in order. */
  function RemoveFile(files: seq<UploadedFile>, id: string): (r: seq<UploadedFile>)
    ensures |r| <= |files|
    ensures forall f :: f in r <==> f in files && f.id != id
  {
    if files == [] then []
    else
      var rest := RemoveFile(files[1..], id);
      if files[0].id == id then rest else [files[0]] + rest
  }

  /** `filter` keeps order: removing from a concatenation removes from each part, in turn. */
  lemma {:induction false} RemoveFileAppend(a: seq<UploadedFile>, b: seq<UploadedFile>, id: string)
    ensures RemoveFile(a + b, id) == RemoveFile(a, id) + RemoveFile(b, id)
  {
    if a != [] {
      assert (a + b)[1..] == a[1..] + b;
      RemoveFileAppend(a[1..], b, id);
    } else {
      assert a + b == b;
    }
  }

  /** A single entry goes exactly when it carries the id. */
  lemma RemoveFileOne(f: UploadedFile, id: string)
    ensures RemoveFile([f], id) == if f.id == id then [] else [f]
  {
    assert [f][1..] == [];
  }

  /** Removing the file just added, under an id no earlier entry has, gives back the earlier list. */
  lemma {:induction false} RemoveAdded(files: seq<UploadedFile>, u: UploadedFile)
    requires forall f :: f in files ==> f.id != u.id
    ensures RemoveFile(files + [u], u.id) == files
  {
    if files == [] {
      assert RemoveFile([u], u.id) == RemoveFile([], u.id);
    } else {
      assert (files + [u])[1..] == files[1..] + [u];
      RemoveAdded(files[1..], u);
      assert files == [files[0]] + files[1..];
    }
  }

  /** A file of exactly the limit is accepted; one byte more is refused with the limit message. */
  lemma LimitBoundary(name: string, mimeType: string, id: string)
    ensures NewUpload(Picked(name, SizeLimit(DefaultMaxMb), mimeType), id, DefaultMaxMb).status == Uploading
    ensures NewUpload(Picked(name, SizeLimit(DefaultMaxMb) + 1, mimeType), id, DefaultMaxMb).error
      == Some(LimitMessage(DefaultMaxMb))
  {
  }
}
