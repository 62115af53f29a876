/**
 * The new-post dialog (frontend/components/create-post-dialog.tsx): its form fields, the guest and blank-field
 * guards, the picture chosen by URL or by upload, and what a submission sends. Request outcomes are inputs.
 */
module PostComposer {
  import opened Wrappers
  import opened Text
  import opened FrontendTypes
  import Api

  const SUBMIT_FALLBACK := "发布失败，请稍后再试"

  /** `isGuest`: nobody signed in, or a visitor account. */
  predicate IsGuest(user: Option<User>) {
    user.None? || user.value.role == "visitor"
  }

  /** The alert that stops a submission before any request: guests first, then a blank trimmed field. */
  function SubmitGuard(user: Option<User>, title: string, content: string): (a: Alert)
    ensures a == NoAlert <==> !IsGuest(user) && JsHasText(title) && JsHasText(content)
    ensures IsGuest(user) ==> a == AlertKey("loginRequired")
    ensures !IsGuest(user) && a != NoAlert ==> a == AlertKey("contentRequired")
  {
    if IsGuest(user) then AlertKey("loginRequired")
    else if !JsHasText(title) || !JsHasText(content) then AlertKey("contentRequired")
    else NoAlert
  }

  /** The JSON body of `POST /posts`. */
  datatype PostPayload = PostPayload(title: string, content: string, imageUrl: Option<string>)

  class Composer {
    var title: string
    var content: string
    var image: Option<string>
    var isSubmitting: bool
    var imageUploading: bool
    var showImageUrlInput: bool
    var imageUrlInput: string

    /** An empty dialog. */
    constructor ()
      ensures title == [] && content == [] && image.None? && !isSubmitting && !imageUploading
      ensures !showImageUrlInput && imageUrlInput == []
    {
      title := [];
      content := [];
      image := None;
      isSubmitting := false;
      imageUploading := false;
      showImageUrlInput := false;
      imageUrlInput := [];
    }

    /** Typing into the title and content fields. */
    method Edit(newTitle: string, newContent: string, newImageUrlInput: string)
      modifies this
      ensures title == newTitle && content == newContent && imageUrlInput == newImageUrlInput
      ensures image == old(image) && isSubmitting == old(isSubmitting) && imageUploading == old(imageUploading)
        && showImageUrlInput == old(showImageUrlInput)
    {
      title := newTitle;
      content := newContent;
      imageUrlInput := newImageUrlInput;
    }

    /**
     * `handleSubmit`. A guest, or a blank trimmed title or content, gets an alert and nothing is sent. Otherwise
     * the trimmed fields and the current picture are posted. Success clears the form, closes the dialog and hands
     * the server's post on; failure keeps the form. Submission is over either way.
     */
    method HandleSubmit(user: Option<User>, outcome: Result<Post, string>)
      returns (alert: Alert, sent: Option<PostPayload>, created: Option<Post>, closed: bool)
      modifies this
      ensures sent.None? <==> SubmitGuard(user, old(title), old(content)) != NoAlert
      ensures sent.None? ==> unchanged(this) && alert == SubmitGuard(user, old(title), old(content))
      ensures sent.Some? ==> sent.value == PostPayload(JsTrim(old(title)), JsTrim(old(content)), old(image))
      ensures sent.Some? ==> !isSubmitting && imageUploading == old(imageUploading)
      ensures sent.Some? && outcome.Ok? ==> (title == [] && content == [] && image.None? && !showImageUrlInput
        && imageUrlInput == [] && closed && created == Some(outcome.value) && alert == AlertKey("postCreated"))
      ensures sent.Some? && outcome.Err? ==> (title == old(title) && content == old(content) && image == old(image)
        && showImageUrlInput == old(showImageUrlInput) && imageUrlInput == old(imageUrlInput)
        && !closed && created.None? && alert == AlertText(MessageOr(outcome.error, SUBMIT_FALLBACK)))
      ensures sent.None? ==> !closed && created.None?
    {
      if IsGuest(user) || !JsHasText(title) || !JsHasText(content) {
        return SubmitGuard(user, title, content), None, None, false;
      }
      sent := Some(PostPayload(JsTrim(title), JsTrim(content), image));
      alert, created, closed := Publish(outcome);
    }

    /** The request part of `handleSubmit`, from `setIsSubmitting(true)` to its `finally`. */
    method Publish(outcome: Result<Post, string>) returns (alert: Alert, created: Option<Post>, closed: bool)
      modifies this
      ensures !isSubmitting && imageUploading == old(imageUploading)
      ensures outcome.Ok? ==> (title == [] && content == [] && image.None? && !showImageUrlInput
        && imageUrlInput == [] && closed && created == Some(outcome.value) && alert == AlertKey("postCreated"))
      ensures outcome.Err? ==> (title == old(title) && content == old(content) && image == old(image)
        && showImageUrlInput == old(showImageUrlInput) && imageUrlInput == old(imageUrlInput)
        && !closed && created.None? && alert == AlertText(MessageOr(outcome.error, SUBMIT_FALLBACK)))
    {
      isSubmitting := true;
      match outcome {
        case Ok(newPost) =>
          content := [];
          title := [];
          image := None;
          showImageUrlInput := false;
          imageUrlInput := [];
          closed := true;
          created := Some(newPost);
          alert := AlertKey("postCreated");
        case Err(message) =>
          closed, created := false, None;
          alert := AlertText(MessageOr(message, SUBMIT_FALLBACK));
      }
      isSubmitting := false;
    }

    /** `handleImageUrlSelect`: a guest is alerted; otherwise the URL box is toggled. */
    method HandleImageUrlSelect(user: Option<User>) returns (alert: Alert)
      modifies this
      ensures IsGuest(user) ==> unchanged(this) && alert == AlertKey("loginRequired")
      ensures !IsGuest(user) ==> showImageUrlInput == !old(showImageUrlInput) && alert == NoAlert
      ensures title == old(title) && content == old(content) && image == old(image) && imageUrlInput == old(imageUrlInput)
        && isSubmitting == old(isSubmitting) && imageUploading == old(imageUploading)
    {
      if IsGuest(user) {
        return AlertKey("loginRequired");
      }
      showImageUrlInput := !showImageUrlInput;
      alert := NoAlert;
    }

    /** `handleImageUrlSave`: a blank URL is refused; otherwise it becomes the picture and the box closes. */
    method HandleImageUrlSave() returns (alert: Alert)
      modifies this
      ensures !JsHasText(old(imageUrlInput)) ==> unchanged(this) && alert == AlertKey("imageUrlRequired")
      ensures JsHasText(old(imageUrlInput)) ==> (image == Some(JsTrim(old(imageUrlInput))) && imageUrlInput == []
        && !showImageUrlInput && alert == NoAlert)
      ensures title == old(title) && content == old(content) && isSubmitting == old(isSubmitting)
        && imageUploading == old(imageUploading)
    {
      if !JsHasText(imageUrlInput) {
        return AlertKey("imageUrlRequired");
      }
      image := Some(JsTrim(imageUrlInput));
      imageUrlInput := [];
      showImageUrlInput := false;
      alert := NoAlert;
    }

    /**
     * `handleFileChange`. No file: nothing. A guest: alert and clear the file input. Otherwise the file is uploaded
     * with the headers `buildHeaders` makes for a call without headers (returned as `headers`); success sets the
     * picture; the input is cleared and uploading ends whatever the outcome.
     */
    method HandleFileChange(hasFile: bool, user: Option<User>, token: Option<string>,
                            outcome: Result<ImageUploadResponse, string>)
      returns (alert: Alert, headers: Option<map<string, string>>, inputCleared: bool)
      modifies this
      ensures !hasFile ==> unchanged(this) && alert == NoAlert && headers.None? && !inputCleared
      ensures hasFile && IsGuest(user) ==> unchanged(this) && alert == AlertKey("loginRequired") && headers.None? && inputCleared
      ensures headers.Some? <==> hasFile && !IsGuest(user)
      ensures headers.Some? ==> (headers.value == Api.HeadersSpec(token, []) && inputCleared && !imageUploading)
      ensures headers.Some? && outcome.Ok? ==> image == Some(outcome.value.url) && alert == NoAlert
      ensures headers.Some? && outcome.Err? ==> (image == old(image)
        && alert == (if outcome.error != [] then AlertText(outcome.error) else AlertKey("imageUploadFailed")))
      ensures title == old(title) && content == old(content) && isSubmitting == old(isSubmitting)
        && showImageUrlInput == old(showImageUrlInput) && imageUrlInput == old(imageUrlInput)
    {
      if !hasFile {
        return NoAlert, None, false;
      }
      if IsGuest(user) {
        return AlertKey("loginRequired"), None, true;
      }
      imageUploading := true;
      headers := Some(Api.HeadersSpec(token, []));
      match outcome {
        case Ok(response) =>
          image := Some(response.url);
          alert := NoAlert;
        case Err(message) =>
          alert := if message != [] then AlertText(message) else AlertKey("imageUploadFailed");
      }
      imageUploading := false;
      inputCleared := true;
    }

    /** `handleRemoveImage`. */
    method HandleRemoveImage()
      modifies this
      ensures image.None?
      ensures title == old(title) && content == old(content) && isSubmitting == old(isSubmitting)
        && imageUploading == old(imageUploading) && showImageUrlInput == old(showImageUrlInput)
        && imageUrlInput == old(imageUrlInput)
    {
      image := None;
    }
  }

  /** The upload goes out labelled `application/json` although its body is multipart form data. */
  lemma UploadContentType(token: Option<string>)
    ensures Api.CONTENT_TYPE in Api.HeadersSpec(token, [])
    ensures Api.HeadersSpec(token, [])[Api.CONTENT_TYPE] == Api.JSON_MEDIA_TYPE
  {
    Api.UploadIsLabelledJson(token);
  }
}
