/**
 * The FileUploader component: chosen files are checked against the allowed image types and
 * the size limit, queued together with a preview URL each, removed one at a time or all
 * together, and uploaded only by an authenticated user.
 */
module FileUploader {
  import opened Wrappers
  import opened Sequences

  /** What the component reads of a browser `File`. */
  datatype FileInfo = FileInfo(name: string, mime: string, size: nat)

  const AllowedImageTypes: seq<string> := ["image/jpeg", "image/png", "image/gif", "image/webp"]
  const MaxFileSize: nat := 5 * 1024 * 1024

  /** Why a file is refused, with the type checked first; None for an acceptable file. */
  function Rejection(f: FileInfo): (r: Option<string>)
    ensures r.None? <==> f.mime in AllowedImageTypes && f.size <= MaxFileSize
  {
    if f.mime !in AllowedImageTypes then Some(f.name + " is not a supported image type")
    else if f.size > MaxFileSize then Some(f.name + " is too large. Maximum size is 5MB")
    else None
  }

  /** `newFiles.filter(...)` in `handleFileChange`. */
  function ValidFiles(fs: seq<FileInfo>): (r: seq<FileInfo>)
    ensures |r| <= |fs|
    ensures forall f :: f in r ==> f in fs && Rejection(f).None?
  {
    if fs == [] then []
    else (if Rejection(fs[0]).None? then [fs[0]] else []) + ValidFiles(fs[1..])
  }

  /** The error toasts `handleFileChange` raises, one per refused file, in order. */
  function RejectionMessages(fs: seq<FileInfo>): seq<string> {
    if fs == [] then []
    else (if Rejection(fs[0]).Some? then [Rejection(fs[0]).value] else []) + RejectionMessages(fs[1..])
  }

  /** A file is kept exactly when it has an allowed type and is at most 5 MiB. */
  lemma {:induction false} ValidFilesMembers(fs: seq<FileInfo>, f: FileInfo)
    ensures f in ValidFiles(fs) <==> f in fs && f.mime in AllowedImageTypes && f.size <= MaxFileSize
  {
    if fs != [] {
      ValidFilesMembers(fs[1..], f);
      assert fs == [fs[0]] + fs[1..];
    }
  }

  /** The kept files keep the order of the selection. */
  lemma {:induction false} ValidFilesIsSubsequence(fs: seq<FileInfo>)
    ensures IsSubsequence(ValidFiles(fs), fs)
  {
    if fs != [] {
      ValidFilesIsSubsequence(fs[1..]);
      var rest := ValidFiles(fs[1..]);
      if Rejection(fs[0]).None? {
        assert ([fs[0]] + rest)[1..] == rest;
      } else {
        assert ValidFiles(fs) == rest;
      }
    }
  }

  /** Every chosen file is either kept or reported. */
  lemma {:induction false} EveryFileAccountedFor(fs: seq<FileInfo>)
    ensures |ValidFiles(fs)| + |RejectionMessages(fs)| == |fs|
  {
    if fs != [] {
      EveryFileAccountedFor(fs[1..]);
    }
  }

  /** A file list of acceptable files passes the check unchanged. */
  lemma {:induction false} ValidFilesKeepsValid(fs: seq<FileInfo>)
    requires forall i :: 0 <= i < |fs| ==> Rejection(fs[i]).None?
    ensures ValidFiles(fs) == fs
  {
    if fs != [] {
      ValidFilesKeepsValid(fs[1..]);
      assert fs == [fs[0]] + fs[1..];
    }
  }

  /** `list.filter((_, i) => i !== index)`. */
  function RemoveAt<T>(s: seq<T>, index: int): (r: seq<T>)
    ensures 0 <= index < |s| ==> r == s[..index] + s[index + 1..]
    ensures !(0 <= index < |s|) ==> r == s
  {
    if s == [] then []
    else
      var rest := RemoveAt(s[1..], index - 1);
      if index == 0 then rest
      else
        assert 0 < index < |s| ==> s[..index] + s[index + 1..] == [s[0]] + (s[1..][..index - 1] + s[1..][index..]);
        [s[0]] + rest
  }

  /** The preview URLs created for newly accepted files. */
  function Previews(fs: seq<FileInfo>, objectUrl: FileInfo -> string): (r: seq<string>)
    ensures |r| == |fs| && forall i :: 0 <= i < |fs| ==> r[i] == objectUrl(fs[i])
  {
    seq(|fs|, i requires 0 <= i < |fs| => objectUrl(fs[i]))
  }

  /** How the batch of uploads ended: all went through, or one threw with this response. */
  datatype UploadOutcome = AllUploaded | UploadFailed(status: Option<nat>, error: Option<string>)

  const LoginRequired := "Please login to upload images"
  const NothingSelected := "Please select images to upload"
  const UploadSucceeded := "Images uploaded successfully!"
  const SessionExpired := "Session expired. Please login again."
  const UploadFailedMessage := "Upload failed"

  class Uploader {
    var files: seq<FileInfo>
    var previewUrls: seq<string>
    var isUploading: bool
    var isAuthenticated: bool
    /** `localStorage.getItem("token")`. */
    var storedToken: Option<string>

    /** Every queued file has its preview at the same position. */
    ghost predicate Valid()
      reads this
    {
      |files| == |previewUrls|
    }

    constructor (storedToken: Option<string>)
      ensures Valid() && files == [] && previewUrls == []
      ensures !isUploading && !isAuthenticated && this.storedToken == storedToken
    {
      files, previewUrls := [], [];
      isUploading, isAuthenticated := false, false;
      this.storedToken := storedToken;
    }

    /** `checkAuth`: `meAccepted` is whether GET /api/auth/me answered without error. */
    method CheckAuth(meAccepted: bool)
      modifies this
      ensures var hasToken := old(storedToken).Some? && old(storedToken).value != "";
        && isAuthenticated == (old(isAuthenticated) || (hasToken && meAccepted))
        && storedToken == (if hasToken && !meAccepted then None else old(storedToken))
      ensures files == old(files) && previewUrls == old(previewUrls) && isUploading == old(isUploading)
    {
      if storedToken.None? || storedToken.value == "" {
        return;
      }
      if meAccepted {
        isAuthenticated := true;
      } else {
        storedToken := None;
      }
    }

    /**
     * `handleFileChange` for the chosen `selected` files; `objectUrl` is
     * `URL.createObjectURL`. Answers with the error toasts raised.
     */
    method HandleFileChange(selected: Option<seq<FileInfo>>, objectUrl: FileInfo -> string) returns (errors: seq<string>)
      requires Valid()
      modifies this
      ensures Valid()
      ensures selected.None? ==> errors == [] && files == old(files) && previewUrls == old(previewUrls)
      ensures selected.Some? ==> errors == RejectionMessages(selected.value)
      ensures selected.Some? ==>
        files == old(files) + ValidFiles(selected.value)
        && previewUrls == old(previewUrls) + Previews(ValidFiles(selected.value), objectUrl)
      ensures isUploading == old(isUploading) && isAuthenticated == old(isAuthenticated) && storedToken == old(storedToken)
    {
      if selected.None? {
        return [];
      }
      errors := RejectionMessages(selected.value);
      var valid := ValidFiles(selected.value);
      if |valid| == 0 {
        return;
      }
      files := files + valid;
      previewUrls := previewUrls + Previews(valid, objectUrl);
    }

    /** `handleRemoveFile`: the file and its preview leave the queue together. */
    method HandleRemoveFile(index: int)
      requires Valid()
      modifies this
      ensures Valid()
      ensures files == RemoveAt(old(files), index) && previewUrls == RemoveAt(old(previewUrls), index)
      ensures isUploading == old(isUploading) && isAuthenticated == old(isAuthenticated) && storedToken == old(storedToken)
    {
      files := RemoveAt(files, index);
      previewUrls := RemoveAt(previewUrls, index);
    }

    method HandleRemoveAll()
      modifies this
      ensures Valid() && files == [] && previewUrls == []
      ensures isUploading == old(isUploading) && isAuthenticated == old(isAuthenticated) && storedToken == old(storedToken)
    {
      files, previewUrls := [], [];
    }

    /**
     * `handleUpload`: `outcome` is how the uploads of the queued files would end. Answers with
     * the toast shown and whether any upload was started.
     */
    method HandleUpload(outcome: UploadOutcome) returns (toast: string, started: bool)
      requires Valid()
      modifies this
      ensures Valid() && isUploading == (old(isUploading) && !started)
      ensures started <==> old(isAuthenticated) && old(files) != []
      ensures !started ==> files == old(files) && previewUrls == old(previewUrls) && storedToken == old(storedToken)
      ensures !old(isAuthenticated) ==> toast == LoginRequired
      ensures old(isAuthenticated) && old(files) == [] ==> toast == NothingSelected
      ensures started && outcome.AllUploaded? ==>
        toast == UploadSucceeded && files == [] && previewUrls == [] && storedToken == old(storedToken)
      ensures started && outcome.UploadFailed? ==>
        files == old(files) && previewUrls == old(previewUrls)
        && (outcome.status == Some(401) ==> toast == SessionExpired && storedToken.None?)
        && (outcome.status != Some(401) ==>
              storedToken == old(storedToken)
              && toast == if outcome.error.Some? && outcome.error.value != "" then outcome.error.value else UploadFailedMessage)
      ensures isAuthenticated == old(isAuthenticated)
    {
      if !isAuthenticated {
        return LoginRequired, false;
      }
      if |files| == 0 {
        return NothingSelected, false;
      }
      started := true;
      isUploading := true;
      match outcome {
        case AllUploaded =>
          toast := UploadSucceeded;
          HandleRemoveAll();
        case UploadFailed(status, error) =>
          if status == Some(401) {
            toast := SessionExpired;
            storedToken := None;
          } else {
            toast := if error.Some? && error.value != "" then error.value else UploadFailedMessage;
          }
      }
      isUploading := false;
    }
  }
}
