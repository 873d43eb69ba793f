/** The video-creation form: its state, one transition per event handler, and the
    pure rules those handlers apply. An asynchronous handler is split at its `await`
    into the part that runs when the event fires (which returns the request it sends)
    and the part that runs when the response settles (which takes the response). */
module CreateVideo {
  import opened Common
  import Words
  import Decimal

  const MaxPromptWords: nat := 300
  const Duration := "8"
  const JpegType := "image/jpeg"
  const FormatError := "Format invalide. Seules les images JPG et JPEG sont autorisées."
  const UploadError := "Erreur lors de l'upload. Vérifiez que le serveur (port 5000) autorise CORS."
  const GenerationError := "Erreur lors de la génération de la vidéo."
  const PreviewError := "Impossible de charger l'image depuis le lien généré."

  /** A file picked in the file input, seen through its name and MIME type. */
  datatype ImageFile = ImageFile(name: string, mimeType: string)

  /** What the upload server's answer amounts to. */
  datatype UploadResponse =
    | UploadHttpError                  // the response is not `ok`
    | UploadBody(url: Option<string>)  // an `ok` response and the `url` field of its JSON body
    | UploadRejected                   // the request or the body's parsing threw

  /** A JSON scalar, as stored in the user record. */
  datatype Json = JNull | JBool(b: bool) | JNum(n: int) | JStr(s: string)

  /** What the generation endpoint's answer amounts to. */
  datatype GenerateResponse =
    | Generated(videoUrl: Option<string>, tokensRemaining: Option<Json>)
    | GenerationFailed(message: Option<string>)   // the server's `message`, when it sent one

  /** The two request shapes sent to `/video/generate`. */
  datatype GenerateRequest =
    | JsonRequest(prompt: string, duration: string, aspectRatio: string, language: string, imageUrl: string)
    | FormRequest(prompt: string, duration: string, aspectRatio: string, language: string)

  /** The URL the upload delivered, if it delivered one: the test `!publicImageUrl`
      rejects an absent field and the empty string alike. */
  function UploadedUrl(resp: UploadResponse): (url: Option<string>)
    ensures url.Some? <==> resp.UploadBody? && resp.url.Some? && resp.url.value != ""
    ensures url.Some? ==> url == resp.url
  {
    match resp
    case UploadBody(Some(u)) => if u != "" then Some(u) else None
    case _ => None
  }

  /** The preview address: the uploaded URL, `?t=` and the clock value, which defeats the browser cache. */
  predicate IsPreviewOf(preview: string, url: string) {
    && |preview| > |url| + 3
    && preview[..|url| + 3] == url + "?t="
    && Decimal.AllDigits(preview[|url| + 3..])
  }

  function PreviewUrl(url: string, now: nat): (preview: string)
    ensures IsPreviewOf(preview, url)
    ensures Decimal.Parse(preview[|url| + 3..]) == now
    ensures preview[|url| + 3] == '0' ==> preview == url + "?t=0"
  {
    var preview := url + "?t=" + Decimal.Show(now);
    assert preview[..|url| + 3] == url + "?t=";
    assert preview[|url| + 3..] == Decimal.Show(now);
    Decimal.ParseShow(now);
    preview
  }

  /** The request a submit sends, or None when it throws before sending: an uploaded
      image goes as a JSON body carrying its URL; a file that never finished uploading
      is an error; with no image the form-data body carries no image at all. */
  function RequestFor(prompt: string, aspectRatio: string, language: string,
                      cloudinaryUrl: string, imageFile: Option<ImageFile>): (r: Option<GenerateRequest>)
    ensures r.None? <==> cloudinaryUrl == "" && imageFile.Some?
    ensures r.Some? ==> && r.value.prompt == prompt && r.value.duration == Duration
                        && r.value.aspectRatio == aspectRatio && r.value.language == language
    ensures r.Some? ==> (r.value.JsonRequest? <==> cloudinaryUrl != "")
    ensures r.Some? && r.value.JsonRequest? ==> r.value.imageUrl == cloudinaryUrl
  {
    if cloudinaryUrl != "" then Some(JsonRequest(prompt, Duration, aspectRatio, language, cloudinaryUrl))
    else if imageFile.Some? then None
    else Some(FormRequest(prompt, Duration, aspectRatio, language))
  }

  /** A selected image is never silently left out of a request. */
  lemma SelectedImageIsSent(prompt: string, aspectRatio: string, language: string,
                            cloudinaryUrl: string, imageFile: Option<ImageFile>)
    requires imageFile.Some?
    ensures var r := RequestFor(prompt, aspectRatio, language, cloudinaryUrl, imageFile);
            r.None? || (r.value.JsonRequest? && r.value.imageUrl != "")
  {
  }

  /** `{ ...user, tokens: tokensRemaining }` when the server reported a balance, else the user as it was. */
  function MergeTokens(user: map<string, Json>, tokensRemaining: Option<Json>): (u: map<string, Json>)
    ensures tokensRemaining.None? ==> u == user
    ensures tokensRemaining.Some? ==> "tokens" in u && u["tokens"] == tokensRemaining.value
    ensures u.Keys == user.Keys + (if tokensRemaining.Some? then {"tokens"} else {})
    ensures forall k :: k in user && k != "tokens" ==> u[k] == user[k]
  {
    if tokensRemaining.Some? then user["tokens" := tokensRemaining.value] else user
  }

  class CreateVideoForm {
    var prompt: string
    var imageFile: Option<ImageFile>
    var previewUrl: string
    var cloudinaryUrl: string
    var aspectRatio: string
    var language: string
    var loading: bool
    var uploadingImage: bool
    var error: string
    var generatedVideo: Option<string>
    var user: map<string, Json>
    /** The browser's stored `user` entry, None when there is none. */
    var storedUser: Option<map<string, Json>>

    /** The prompt never holds more words than the gate admits, counted as maximal
        non-space runs (`Words.WordCount` equals that count). Only `ChangePrompt` may
        write `prompt`, so every other handler keeps this by its frame alone. */
    ghost predicate PromptFits()
      reads this`prompt
    {
      Words.Runs(prompt) <= MaxPromptWords
    }

    /** A kept file is a JPEG, and a preview is shown exactly when an uploaded URL is
        held, the preview being that URL stamped with a clock value. The three image
        handlers keep this in whatever order events and upload responses arrive; no
        other handler may write these fields. */
    ghost predicate ImageFits()
      reads this`imageFile, this`previewUrl, this`cloudinaryUrl
    {
      && (imageFile.Some? ==> imageFile.value.mimeType == JpegType)
      && (previewUrl == "" <==> cloudinaryUrl == "")
      && (cloudinaryUrl != "" ==> IsPreviewOf(previewUrl, cloudinaryUrl))
    }

    /** The form as first rendered; `saved` is the stored user entry. */
    constructor (saved: Option<map<string, Json>>)
      ensures PromptFits() && ImageFits()
      ensures prompt == "" && imageFile.None? && previewUrl == "" && cloudinaryUrl == ""
      ensures aspectRatio == "pc" && language == "fr"
      ensures !loading && !uploadingImage && error == "" && generatedVideo.None?
      ensures user == (if saved.Some? then saved.value else map[]) && storedUser == saved
    {
      prompt := "";
      imageFile := None;
      previewUrl := "";
      cloudinaryUrl := "";
      aspectRatio := "pc";
      language := "fr";
      loading := false;
      uploadingImage := false;
      error := "";
      generatedVideo := None;
      user := if saved.Some? then saved.value else map[];
      storedUser := saved;
    }

    /** The "Supprimer" button. */
    method RemoveImage()
      requires ImageFits()
      modifies this`imageFile, this`previewUrl, this`cloudinaryUrl
      ensures ImageFits()
      ensures imageFile.None? && previewUrl == "" && cloudinaryUrl == ""
    {
      imageFile := None;
      previewUrl := "";
      cloudinaryUrl := "";
    }

    /** A change of the file input, up to the upload request. `upload` is the file
        posted to the upload server, None when nothing is posted. */
    method SelectImage(file: Option<ImageFile>) returns (upload: Option<ImageFile>)
      requires ImageFits()
      modifies this`error, this`imageFile, this`previewUrl, this`cloudinaryUrl, this`uploadingImage
      ensures ImageFits()
      ensures upload.Some? <==> file.Some? && file.value.mimeType == JpegType
      ensures file.None? ==>
        && error == old(error) && imageFile == old(imageFile) && previewUrl == old(previewUrl)
        && cloudinaryUrl == old(cloudinaryUrl) && uploadingImage == old(uploadingImage)
      ensures file.Some? && upload.None? ==>
        && error == FormatError && imageFile.None? && previewUrl == "" && cloudinaryUrl == ""
        && uploadingImage == old(uploadingImage)
      ensures upload.Some? ==>
        && upload == file && imageFile == file && error == "" && uploadingImage
        && previewUrl == "" && cloudinaryUrl == ""
    {
      upload := None;
      if file.Some? {
        if file.value.mimeType != JpegType {
          error := FormatError;
          imageFile := None;
          previewUrl := "";
          cloudinaryUrl := "";
          return;
        }
        error := "";
        imageFile := file;
        uploadingImage := true;
        previewUrl := "";
        cloudinaryUrl := "";
        upload := file;
      }
    }

    /** The upload's response arrives; `now` is the clock value `Date.now()` at that moment. */
    method UploadSettled(resp: UploadResponse, now: nat)
      requires ImageFits()
      modifies this`previewUrl, this`cloudinaryUrl, this`error, this`uploadingImage
      ensures ImageFits() && !uploadingImage
      ensures UploadedUrl(resp).Some? ==>
        && cloudinaryUrl == UploadedUrl(resp).value && previewUrl == PreviewUrl(cloudinaryUrl, now)
        && error == old(error)
      ensures UploadedUrl(resp).None? ==>
        && error == UploadError && cloudinaryUrl == old(cloudinaryUrl) && previewUrl == old(previewUrl)
    {
      var url := UploadedUrl(resp);
      if url.Some? {
        previewUrl := PreviewUrl(url.value, now);
        cloudinaryUrl := url.value;
      } else {
        error := UploadError;
      }
      uploadingImage := false;
    }

    /** The preview image failed to load from the uploaded URL. */
    method PreviewLoadFailed()
      modifies this`error
      ensures error == PreviewError
    {
      error := PreviewError;
    }

    /** An edit of the prompt box: kept only when it has at most 300 words. */
    method ChangePrompt(text: string)
      requires PromptFits()
      modifies this`prompt
      ensures PromptFits()
      ensures Words.WordCount(text) <= MaxPromptWords ==> prompt == text
      ensures Words.WordCount(text) > MaxPromptWords ==> prompt == old(prompt)
    {
      var wordCount := Words.WordCount(text);
      if wordCount <= MaxPromptWords {
        prompt := text;
      }
    }

    /** The "Format" select. */
    method SetAspectRatio(value: string)
      modifies this`aspectRatio
      ensures aspectRatio == value
    {
      aspectRatio := value;
    }

    /** The "Langue" select. */
    method SetLanguage(value: string)
      modifies this`language
      ensures language == value
    {
      language := value;
    }

    /** A form submit, up to the generation request. `request` is what is sent, None when
        nothing is. While an upload is pending the submit does nothing; when it throws
        before sending, the thrown error carries no server response, so the message shown
        is the generic one. */
    method Submit() returns (request: Option<GenerateRequest>)
      modifies this`loading, this`error, this`generatedVideo
      ensures uploadingImage ==>
        && request.None? && loading == old(loading) && error == old(error)
        && generatedVideo == old(generatedVideo)
      ensures !uploadingImage ==>
        && request == RequestFor(prompt, aspectRatio, language, cloudinaryUrl, imageFile)
        && generatedVideo.None?
      ensures !uploadingImage && request.Some? ==> loading && error == ""
      ensures !uploadingImage && request.None? ==> !loading && error == GenerationError
    {
      request := None;
      if uploadingImage {
        return;
      }
      loading := true;
      error := "";
      generatedVideo := None;
      request := RequestFor(prompt, aspectRatio, language, cloudinaryUrl, imageFile);
      if request.None? {
        error := OrElse(None, GenerationError);
        loading := false;
      }
    }

    /** The generation response arrives. */
    method GenerationSettled(resp: GenerateResponse)
      modifies this`generatedVideo, this`user, this`storedUser, this`error, this`loading
      ensures !loading
      ensures resp.Generated? ==>
        && generatedVideo == resp.videoUrl && error == old(error)
        && user == MergeTokens(old(user), resp.tokensRemaining)
        && storedUser == (if resp.tokensRemaining.Some? then Some(user) else old(storedUser))
      ensures resp.GenerationFailed? ==>
        && error == OrElse(resp.message, GenerationError) && generatedVideo == old(generatedVideo)
        && user == old(user) && storedUser == old(storedUser)
    {
      match resp {
        case Generated(videoUrl, tokensRemaining) =>
          generatedVideo := videoUrl;
          if tokensRemaining.Some? {
            var updatedUser := MergeTokens(user, tokensRemaining);
            storedUser := Some(updatedUser);
            user := updatedUser;
          }
        case GenerationFailed(message) =>
          error := OrElse(message, GenerationError);
      }
      loading := false;
    }
  }
}
