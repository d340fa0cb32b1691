/** The browser-side gate of the upload component: before anything is sent,
    the chosen file's MIME type must be one of nine exact strings and its size
    at most 500 MiB; a file that passes is posted to the server, and the
    component's `error` and `isUploading` state follow the outcome. */
module FileGate {
  import opened Types
  import UploadFilter

  /** The MIME types the component accepts, compared for exact equality. */
  const AllowedMimeTypes: seq<string> :=
    ["image/jpeg", "image/jpg", "image/png", "image/webp",
     "video/mp4", "video/avi", "video/mkv", "video/mov", "video/webm"]

  const MaxFileBytes := 500 * 1024 * 1024

  const TypeMessage := "Please upload a valid image (JPEG, PNG, WebP) or video (MP4, AVI, MKV, MOV, WebM) file."
  const SizeMessage := "File size must be less than 500MB."
  const UploadFailedMessage := "Failed to upload file. Please try again."

  /** The parts of a browser `File` the component looks at. */
  datatype File = File(name: string, mimeType: string, size: nat)

  /** How the `fetch` to the upload endpoint ended: it failed outright, or a
      response came back with its `ok` flag and its body read as JSON
      (`None` when that reading throws). */
  datatype Outcome = NetworkError | Replied(ok: bool, body: Option<FileInfo>)

  predicate Delivers(outcome: Outcome) {
    outcome.Replied? && outcome.ok && outcome.body.Some?
  }

  /** The validation verdict: no message when the file may be uploaded,
      otherwise the message the component shows. The type is checked first. */
  function Validate(mimeType: string, size: nat): (err: Option<string>)
    ensures err.None? <==> mimeType in AllowedMimeTypes && size <= MaxFileBytes
    ensures mimeType !in AllowedMimeTypes ==> err == Some(TypeMessage)
    ensures mimeType in AllowedMimeTypes && size > MaxFileBytes ==> err == Some(SizeMessage)
  {
    if mimeType !in AllowedMimeTypes then Some(TypeMessage)
    else if size > MaxFileBytes then Some(SizeMessage)
    else None
  }

  class FileUploadState {
    var error: Option<string>
    var isUploading: bool
    /** Files posted to the upload endpoint, oldest first. */
    var uploads: seq<File>
    /** File records handed to the parent's `onFileUpload`, oldest first. */
    var delivered: seq<FileInfo>

    constructor()
      ensures error == None && !isUploading && uploads == [] && delivered == []
    {
      error := None;
      isUploading := false;
      uploads := [];
      delivered := [];
    }

    /** `handleFileSelect` up to the awaited `fetch`: clear the previous
        error, validate, and only then mark the upload as running and send. */
    method HandleFileSelect(file: File) returns (started: bool)
      modifies this
      ensures error == Validate(file.mimeType, file.size)
      ensures started <==> error.None?
      ensures started ==> isUploading && uploads == old(uploads) + [file]
      ensures !started ==> isUploading == old(isUploading) && uploads == old(uploads)
      ensures delivered == old(delivered)
    {
      error := None;
      if file.mimeType !in AllowedMimeTypes {
        error := Some(TypeMessage);
        return false;
      }
      if file.size > MaxFileBytes {
        error := Some(SizeMessage);
        return false;
      }
      isUploading := true;
      uploads := uploads + [file];
      return true;
    }

    /** `handleFileSelect` after the `fetch`: a non-ok response or any error
        is reported with one fixed message; a parsed record is handed on, and
        when the parent's `onFileUpload` (`handedOnThrows`) throws, the same
        `catch` shows the message after the hand-off; the `finally` clears
        `isUploading` on every path. */
    method FinishUpload(outcome: Outcome, handedOnThrows: bool)
      modifies this
      ensures !isUploading
      ensures Delivers(outcome) ==> delivered == old(delivered) + [outcome.body.value]
      ensures Delivers(outcome) && !handedOnThrows ==> error == old(error)
      ensures !Delivers(outcome) ==> delivered == old(delivered)
      ensures !Delivers(outcome) || handedOnThrows ==> error == Some(UploadFailedMessage)
      ensures uploads == old(uploads)
    {
      match outcome {
        case Replied(true, Some(info)) =>
          delivered := delivered + [info];
          if handedOnThrows {
            error := Some(UploadFailedMessage);
          }
        case _ =>
          error := Some(UploadFailedMessage);
      }
      isUploading := false;
    }
  }

  /** A selection followed by its upload's completion: the file is posted
      and the flag is down again, with the record delivered, the failure shown,
      or both when the parent's callback throws; a file that fails validation
      is not posted and changes nothing but the message. */
  method SelectAndUpload(state: FileUploadState, file: File, outcome: Outcome, handedOnThrows: bool)
    returns (started: bool)
    modifies state
    ensures started <==> Validate(file.mimeType, file.size).None?
    ensures started ==> !state.isUploading && state.uploads == old(state.uploads) + [file]
    ensures started && Delivers(outcome) ==> state.delivered == old(state.delivered) + [outcome.body.value]
    ensures started && Delivers(outcome) && !handedOnThrows ==> state.error == None
    ensures started && (!Delivers(outcome) || handedOnThrows) ==> state.error == Some(UploadFailedMessage)
    ensures started && !Delivers(outcome) ==> state.delivered == old(state.delivered)
    ensures !started ==> state.error == Validate(file.mimeType, file.size) && state.uploads == old(state.uploads)
    ensures !started ==> state.isUploading == old(state.isUploading) && state.delivered == old(state.delivered)
  {
    started := state.HandleFileSelect(file);
    if started {
      state.FinishUpload(outcome, handedOnThrows);
    }
  }

  /** The type check comes first: a file of a disallowed type gets the type
      message whatever its size. */
  lemma TypeCheckedFirst(mimeType: string, size: nat)
    requires mimeType !in AllowedMimeTypes
    ensures Validate(mimeType, size) == Some(TypeMessage)
  {
  }

  /** Membership is exact: a MIME type that merely contains an allowed word
      is refused here, though the server's substring test would let it through. */
  lemma ExactNotSubstring()
    ensures Validate("image/pngx", 1) == Some(TypeMessage)
    ensures UploadFilter.MatchesAllowed("image/pngx")
  {
    assert UploadFilter.OccursAt(UploadFilter.AllowedWords[2], "image/pngx", 6);
    assert forall k :: 0 <= k < |AllowedMimeTypes| ==> |AllowedMimeTypes[k]| != 10 || AllowedMimeTypes[k][9] != 'x';
  }

  /** The size limit admits exactly 524288000 bytes. */
  lemma SizeBoundary(mimeType: string)
    requires mimeType in AllowedMimeTypes
    ensures Validate(mimeType, 524288000) == None
    ensures Validate(mimeType, 524288001) == Some(SizeMessage)
  {
  }

  /** The i-th accepted MIME type contains the server's i-th allowed word
      right after its "image/" or "video/" prefix. */
  lemma MimeCarriesWord(k: nat)
    requires k < |AllowedMimeTypes|
    ensures |UploadFilter.AllowedWords| == |AllowedMimeTypes|
    ensures UploadFilter.OccursAt(UploadFilter.AllowedWords[k], AllowedMimeTypes[k], 6)
  {
    var t := AllowedMimeTypes[k];
    var w := UploadFilter.AllowedWords[k];
    if k == 0 { assert t[6..6 + |w|] == w; }
    else if k == 1 { assert t[6..6 + |w|] == w; }
    else if k == 2 { assert t[6..6 + |w|] == w; }
    else if k == 3 { assert t[6..6 + |w|] == w; }
    else if k == 4 { assert t[6..6 + |w|] == w; }
    else if k == 5 { assert t[6..6 + |w|] == w; }
    else if k == 6 { assert t[6..6 + |w|] == w; }
    else if k == 7 { assert t[6..6 + |w|] == w; }
    else { assert t[6..6 + |w|] == w; }
  }

  /** Whatever the browser lets through also passes the server's MIME test
      and its size limit, which is the same 500 MiB. */
  lemma ClientAcceptedPassesServerMime(mimeType: string, size: nat)
    requires Validate(mimeType, size) == None
    ensures UploadFilter.MatchesAllowed(mimeType)
    ensures size <= UploadFilter.MaxUploadBytes
  {
    var k :| 0 <= k < |AllowedMimeTypes| && AllowedMimeTypes[k] == mimeType;
    MimeCarriesWord(k);
    assert UploadFilter.Occurs(UploadFilter.AllowedWords[k], mimeType);
  }

  /** The browser does not look at the file name, but the server does: a
      JPEG without an extension passes here and is refused there. */
  lemma ClientPassesServerRejects()
    ensures Validate("image/jpeg", 1) == None
    ensures UploadFilter.UploadVerdict("photo", "image/jpeg", 1) == UploadFilter.Reject(UploadFilter.InvalidTypeMessage)
  {
    UploadFilter.ExtnameNone("photo");
    UploadFilter.NoAllowedWordIn("");
  }
}
