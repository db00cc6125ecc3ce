/** The image upload widget (components/UploadWithAPI.tsx): per-file
    validation, the `files` list and its `previews` kept side by side, the
    reset effect and the upload call with the network's answer passed in. */
module Upload {
  import opened Types
  import opened JsString
  import opened JsArray

  /** One megabyte as the widget counts it. */
  const MiB := 1024 * 1024

  /** A preview URL from `URL.createObjectURL`: an opaque token, told apart by
      the serial number of its creation. */
  datatype ObjectUrl = ObjectUrl(serial: nat)

  /** What the upload route answers for one image. */
  datatype UploadResult = UploadResult(url: string, publicId: string)

  /** The messages the widget shows: "Only image files are allowed", "File
      size must be less than {maxSize}MB", "Maximum {maxFiles} files allowed",
      and the message of a failed upload. */
  datatype UploadError =
    | OnlyImages
    | TooLarge(maxSize: int)
    | TooManyFiles(maxFiles: int)
    | UploadFailed(message: string)

  /** What `onUploadComplete` is called with: the selected files when the
      widget does not upload by itself, or the upload results. */
  datatype Report = SelectedFiles(files: seq<FileInfo>) | Uploaded(results: seq<UploadResult>)

  /** The outcome of `api.uploadMultipleImages`: the results it returned, or
      the message of the error it threw. */
  datatype UploadResponse = Returned(results: seq<UploadResult>) | Threw(message: string)

  /** `validateFile`: the type is checked before the size. */
  function ValidateFile(f: FileInfo, maxSize: int): Option<UploadError> {
    if !StartsWith(f.mimeType, "image/") then Some(OnlyImages)
    else if f.size > maxSize * MiB then Some(TooLarge(maxSize))
    else None
  }

  /** A file passes exactly when its type starts with "image/" and it is at
      most `maxSize` megabytes; a file that is not an image is refused as such
      whatever its size. */
  lemma ValidateFileSpec(f: FileInfo, maxSize: int)
    ensures ValidateFile(f, maxSize).None? <==> StartsWith(f.mimeType, "image/") && f.size <= maxSize * MiB
    ensures ValidateFile(f, maxSize) == Some(OnlyImages) <==> !StartsWith(f.mimeType, "image/")
    ensures ValidateFile(f, maxSize) == Some(TooLarge(maxSize)) <==>
      StartsWith(f.mimeType, "image/") && f.size > maxSize * MiB
  {
  }

  /** The error left after the `forEach` over a selection: that of the last
      invalid file, none when every file is valid. */
  function LastError(selected: seq<FileInfo>, maxSize: int): Option<UploadError> {
    if selected == [] then None
    else if ValidateFile(selected[|selected| - 1], maxSize).Some? then ValidateFile(selected[|selected| - 1], maxSize)
    else LastError(selected[..|selected| - 1], maxSize)
  }

  /** The file passes validation. */
  function Passes(maxSize: int): FileInfo -> bool {
    f => ValidateFile(f, maxSize).None?
  }

  /** There is no error exactly when every file is valid; otherwise the error
      is that of some invalid file after which all files are valid. */
  lemma {:induction false} LastErrorSpec(selected: seq<FileInfo>, maxSize: int)
    ensures LastError(selected, maxSize).None? <==> forall i :: 0 <= i < |selected| ==> ValidateFile(selected[i], maxSize).None?
    ensures LastError(selected, maxSize).Some? ==> LastInvalid(selected, maxSize, LastError(selected, maxSize))
  {
    if selected != [] {
      var n := |selected| - 1;
      var init := selected[..n];
      LastErrorSpec(init, maxSize);
      if ValidateFile(selected[n], maxSize).Some? {
        assert IsLastInvalid(selected, maxSize, LastError(selected, maxSize), n);
      } else if LastError(init, maxSize).Some? {
        var k :| 0 <= k < |init| && IsLastInvalid(init, maxSize, LastError(init, maxSize), k);
        assert IsLastInvalid(selected, maxSize, LastError(selected, maxSize), k) by {
          forall j | k < j < |selected|
            ensures ValidateFile(selected[j], maxSize).None?
          {
            if j < n {
              assert selected[j] == init[j];
            }
          }
        }
      } else {
        forall i | 0 <= i < |selected|
          ensures ValidateFile(selected[i], maxSize).None?
        {
          if i < n {
            assert selected[i] == init[i];
          }
        }
      }
    }
  }

  /** File `k` is invalid with error `e`, and every file after it is valid. */
  predicate IsLastInvalid(selected: seq<FileInfo>, maxSize: int, e: Option<UploadError>, k: int) {
    0 <= k < |selected| && e == ValidateFile(selected[k], maxSize)
    && forall j :: k < j < |selected| ==> ValidateFile(selected[j], maxSize).None?
  }

  /** `e` is the error of some file after which every file is valid. */
  predicate LastInvalid(selected: seq<FileInfo>, maxSize: int, e: Option<UploadError>) {
    exists k | 0 <= k < |selected| :: IsLastInvalid(selected, maxSize, e, k)
  }

  /** The `forEach` step: one more file looked at. */
  lemma LastErrorSnoc(selected: seq<FileInfo>, i: nat, maxSize: int)
    requires i < |selected|
    ensures LastError(selected[..i + 1], maxSize) ==
      if ValidateFile(selected[i], maxSize).Some? then ValidateFile(selected[i], maxSize) else LastError(selected[..i], maxSize)
  {
    assert selected[..i + 1][..i] == selected[..i];
  }

  /** The `forEach` of `handleFilesSelected`: each valid file is collected
      with a new preview URL, numbered from `firstUrl`; each invalid one sets
      the pending error, so the last one wins. (React applies the `setError`
      calls after the callback, so the pending error is a local here.) */
  method CheckSelection(selected: seq<FileInfo>, maxSize: int, firstUrl: nat)
    returns (validFiles: seq<FileInfo>, newPreviews: seq<ObjectUrl>, hasError: bool,
             lastError: Option<UploadError>, nextUrl: nat)
    ensures validFiles == Filter(selected, Passes(maxSize))
    ensures |newPreviews| == |validFiles| && nextUrl == firstUrl + |validFiles|
    ensures forall k :: 0 <= k < |newPreviews| ==> newPreviews[k] == ObjectUrl(firstUrl + k)
    ensures hasError <==> LastError(selected, maxSize).Some?
    ensures lastError == LastError(selected, maxSize)
  {
    validFiles := [];
    newPreviews := [];
    hasError := false;
    lastError := None;
    nextUrl := firstUrl;
    var i := 0;
    while i < |selected|
      invariant 0 <= i <= |selected|
      invariant validFiles == Filter(selected[..i], Passes(maxSize))
      invariant |newPreviews| == |validFiles| && nextUrl == firstUrl + |validFiles|
      invariant forall k :: 0 <= k < |newPreviews| ==> newPreviews[k] == ObjectUrl(firstUrl + k)
      invariant lastError == LastError(selected[..i], maxSize)
      invariant hasError <==> lastError.Some?
    {
      LastErrorSnoc(selected, i, maxSize);
      FilterSnoc(selected, i, Passes(maxSize));
      var validationError := ValidateFile(selected[i], maxSize);
      if validationError.Some? {
        lastError := validationError;
        hasError := true;
      } else {
        validFiles := validFiles + [selected[i]];
        newPreviews := newPreviews + [ObjectUrl(nextUrl)];
        nextUrl := nextUrl + 1;
      }
      i := i + 1;
    }
    assert selected[..i] == selected;
  }

  /** The widget's state. `nextUrl` is the serial number the next preview URL
      gets. */
  class UploadWidget {
    var files: seq<FileInfo>
    var previews: seq<ObjectUrl>
    var uploadedResults: seq<UploadResult>
    var error: Option<UploadError>
    var uploading: bool
    var nextUrl: nat
    const maxFiles: int
    const maxSize: int
    const autoUpload: bool

    /** One preview per file, in the same order, each a distinct URL created
        before now. */
    ghost predicate Valid()
      reads this
    {
      |files| == |previews|
      && (forall i :: 0 <= i < |previews| ==> previews[i].serial < nextUrl)
      && (forall i, j :: 0 <= i < j < |previews| ==> previews[i] != previews[j])
    }

    /** The props `maxFiles`, `maxSize` (megabytes) and `autoUpload`; one
        left undefined takes its default of 5, 10 or true. The lists start
        empty. */
    constructor (maxFiles: Option<int>, maxSize: Option<int>, autoUpload: Option<bool>)
      ensures Valid()
      ensures this.maxFiles == (if maxFiles.Some? then maxFiles.value else 5)
      ensures this.maxSize == (if maxSize.Some? then maxSize.value else 10)
      ensures this.autoUpload == (if autoUpload.Some? then autoUpload.value else true)
      ensures files == [] && previews == [] && uploadedResults == [] && error.None? && !uploading
    {
      this.maxFiles := if maxFiles.Some? then maxFiles.value else 5;
      this.maxSize := if maxSize.Some? then maxSize.value else 10;
      this.autoUpload := if autoUpload.Some? then autoUpload.value else true;
      files := [];
      previews := [];
      uploadedResults := [];
      error := None;
      uploading := false;
      nextUrl := 0;
    }

    /** `handleFilesSelected`. A selection that would take the list past
        `maxFiles` only sets the count error. Otherwise every file is
        validated in turn, a preview URL is made for each valid one, and an
        invalid one sets the error; if any was invalid nothing is added and the
        error of the last invalid file stays. If all are valid they are
        appended with their previews, the error is cleared, and without
        auto-upload the parent is told the whole list. */
    method HandleFilesSelected(selected: seq<FileInfo>) returns (report: Option<Report>)
      requires Valid()
      modifies this
      ensures Valid()
      ensures |old(files)| + |selected| > maxFiles ==>
        files == old(files) && previews == old(previews) && error == Some(TooManyFiles(maxFiles)) && report.None?
      ensures |old(files)| + |selected| <= maxFiles && LastError(selected, maxSize).Some? ==>
        files == old(files) && previews == old(previews) && error == LastError(selected, maxSize) && report.None?
      ensures |old(files)| + |selected| <= maxFiles && LastError(selected, maxSize).None? ==>
        files == old(files) + selected && |previews| == |old(previews)| + |selected|
        && previews[..|old(previews)|] == old(previews) && error.None?
        && report == if autoUpload then None else Some(SelectedFiles(files))
      ensures |old(files)| <= maxFiles ==> |files| <= maxFiles
      ensures uploadedResults == old(uploadedResults) && uploading == old(uploading)
    {
      report := None;
      if |files| + |selected| > maxFiles {
        error := Some(TooManyFiles(maxFiles));
        return;
      }
      var validFiles, newPreviews, hasError, lastError, url := CheckSelection(selected, maxSize, nextUrl);
      ghost var firstUrl := nextUrl;
      nextUrl := url;
      if hasError {
        error := lastError;
        return;
      }
      LastErrorSpec(selected, maxSize);
      FilterKeepsAll(selected, Passes(maxSize));
      AppendFresh(previews, newPreviews, firstUrl, nextUrl);
      files := files + validFiles;
      previews := previews + newPreviews;
      error := None;
      if !autoUpload {
        report := Some(SelectedFiles(files));
      }
    }

    /** `removeFile`: splices the same position out of copies of both lists,
        so they stay aligned, and revokes the preview URL found at that
        position (none when it is out of range); without auto-upload the
        parent is told the new list. */
    method RemoveFile(index: int) returns (revoked: Option<ObjectUrl>, report: Option<Report>)
      requires Valid()
      modifies this
      ensures Valid()
      ensures files == SpliceOne(old(files), index) && previews == SpliceOne(old(previews), index)
      ensures 0 <= index < |old(files)| ==>
        files == old(files)[..index] + old(files)[index + 1..]
        && previews == old(previews)[..index] + old(previews)[index + 1..]
      ensures revoked == if 0 <= index < |old(previews)| then Some(old(previews)[index]) else None
      ensures report == if autoUpload then None else Some(SelectedFiles(files))
      ensures error == old(error) && uploadedResults == old(uploadedResults) && uploading == old(uploading)
    {
      revoked := if 0 <= index < |previews| then Some(previews[index]) else None;
      SpliceKeepsFresh(previews, index, nextUrl);
      files := SpliceOne(files, index);
      previews := SpliceOne(previews, index);
      report := if autoUpload then None else Some(SelectedFiles(files));
    }

    /** The reset effect: when `reset` is set, the files, previews and results
        are emptied and the error cleared; otherwise nothing happens. */
    method ResetEffect(reset: bool)
      requires Valid()
      modifies this
      ensures Valid()
      ensures reset ==> files == [] && previews == [] && uploadedResults == [] && error.None?
      ensures !reset ==> (files == old(files) && previews == old(previews)
        && uploadedResults == old(uploadedResults) && error == old(error))
      ensures uploading == old(uploading)
    {
      if reset {
        files := [];
        previews := [];
        uploadedResults := [];
        error := None;
      }
    }

    /** `handleUpload`, with the network's answer as a parameter. With no
        files nothing happens. Otherwise a non-empty result list is stored and
        reported; an empty one fails with "No results returned"; a thrown error
        leaves its message, or "Upload failed. Please try again." when that is
        empty. The busy flag ends cleared either way. */
    method HandleUpload(response: UploadResponse) returns (report: Option<Report>)
      requires Valid()
      modifies this
      ensures Valid()
      ensures old(files) == [] ==> (report.None? && error == old(error)
        && uploadedResults == old(uploadedResults) && uploading == old(uploading))
      ensures old(files) != [] ==> !uploading
      ensures old(files) != [] && response.Returned? && response.results != [] ==>
        uploadedResults == response.results && report == Some(Uploaded(response.results)) && error.None?
      ensures old(files) != [] && response.Returned? && response.results == [] ==>
        uploadedResults == old(uploadedResults) && report.None? && error == Some(UploadFailed("No results returned"))
      ensures old(files) != [] && response.Threw? ==>
        uploadedResults == old(uploadedResults) && report.None?
        && error == Some(UploadFailed(if response.message != "" then response.message else "Upload failed. Please try again."))
      ensures files == old(files) && previews == old(previews)
    {
      report := None;
      if |files| == 0 {
        return;
      }
      uploading := true;
      error := None;
      match response {
        case Returned(results) =>
          if |results| > 0 {
            uploadedResults := results;
            report := Some(Uploaded(results));
          } else {
            error := Some(UploadFailed("No results returned"));
          }
        case Threw(message) =>
          error := Some(UploadFailed(if message != "" then message else "Upload failed. Please try again."));
      }
      uploading := false;
    }
  }

  /** URLs numbered `first`, `first + 1`, ... appended to distinct URLs made
      before `first` give distinct URLs made before the new counter. */
  lemma AppendFresh(urls: seq<ObjectUrl>, added: seq<ObjectUrl>, first: nat, next: nat)
    requires forall i :: 0 <= i < |urls| ==> urls[i].serial < first
    requires forall i, j :: 0 <= i < j < |urls| ==> urls[i] != urls[j]
    requires first + |added| == next
    requires forall k :: 0 <= k < |added| ==> added[k] == ObjectUrl(first + k)
    ensures var r := urls + added;
      (forall i :: 0 <= i < |r| ==> r[i].serial < next)
      && (forall i, j :: 0 <= i < j < |r| ==> r[i] != r[j])
  {
    var r := urls + added;
    forall i, j | 0 <= i < j < |r|
      ensures r[i] != r[j]
    {
      if j >= |urls| {
        assert r[j] == added[j - |urls|];
        if i < |urls| {
          assert r[i] == urls[i];
        } else {
          assert r[i] == added[i - |urls|];
        }
      }
    }
  }

  /** Splicing one URL out of a list of distinct URLs made before `bound`
      leaves a list of distinct URLs made before `bound`. */
  lemma SpliceKeepsFresh(urls: seq<ObjectUrl>, index: int, bound: nat)
    requires forall i :: 0 <= i < |urls| ==> urls[i].serial < bound
    requires forall i, j :: 0 <= i < j < |urls| ==> urls[i] != urls[j]
    ensures var r := SpliceOne(urls, index);
      (forall i :: 0 <= i < |r| ==> r[i].serial < bound)
      && (forall i, j :: 0 <= i < j < |r| ==> r[i] != r[j])
  {
    var start := RelativeIndex(|urls|, index);
    var r := SpliceOne(urls, index);
    if start < |urls| {
      assert r == urls[..start] + urls[start + 1..];
      forall i | 0 <= i < |r|
        ensures r[i] == urls[if i < start then i else i + 1]
      {
      }
    }
  }
}
