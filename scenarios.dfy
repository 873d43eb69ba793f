/** Client code that drives the components through event sequences and checks, from
    their contracts alone, what each sequence leaves behind. */
module Scenarios {
  import opened Common
  import CreateVideo
  import Signup
  import App

  /** A JPEG whose upload fails leaves no uploaded URL: a submit while the upload is
      pending does nothing, and a submit afterwards sends nothing and shows the generic error. */
  method FailedUploadBlocksSubmit(file: CreateVideo.ImageFile, resp: CreateVideo.UploadResponse, now: nat)
    requires file.mimeType == CreateVideo.JpegType
    requires CreateVideo.UploadedUrl(resp).None?
  {
    var form := new CreateVideo.CreateVideoForm(None);
    var upload := form.SelectImage(Some(file));
    assert upload == Some(file) && form.uploadingImage;
    var request := form.Submit();
    assert request.None? && !form.loading && form.error == "";
    form.UploadSettled(resp, now);
    assert form.cloudinaryUrl == "" && form.previewUrl == "" && form.error == CreateVideo.UploadError;
    assert form.imageFile == Some(file) && !form.uploadingImage;
    request := form.Submit();
    assert request.None? && !form.loading && form.error == CreateVideo.GenerationError;
  }

  /** A fresh form on which a JPEG was chosen and its upload delivered `url`. */
  method UploadedForm(file: CreateVideo.ImageFile, url: string, now: nat)
    returns (form: CreateVideo.CreateVideoForm)
    requires file.mimeType == CreateVideo.JpegType && url != ""
    ensures fresh(form) && form.ImageFits()
    ensures form.imageFile == Some(file) && !form.uploadingImage
    ensures form.cloudinaryUrl == url && form.previewUrl == CreateVideo.PreviewUrl(url, now)
    ensures form.prompt == "" && form.aspectRatio == "pc" && form.language == "fr"
  {
    form := new CreateVideo.CreateVideoForm(None);
    var upload := form.SelectImage(Some(file));
    form.UploadSettled(CreateVideo.UploadBody(Some(url)), now);
  }

  /** A successful upload puts its URL into the JSON request. (The handler itself does
      not look at the prompt; only the browser's `required` check would stop an empty one.) */
  method UploadedImageIsSent(file: CreateVideo.ImageFile, url: string, now: nat)
    requires file.mimeType == CreateVideo.JpegType && url != ""
  {
    var form := UploadedForm(file, url, now);
    var request := form.Submit();
    assert request == Some(CreateVideo.JsonRequest("", "8", "pc", "fr", url));
    assert form.loading;
  }

  /** A reported balance replaces the user's tokens, keeps every other field and is stored. */
  method BalanceIsMerged(saved: map<string, CreateVideo.Json>, balance: int)
  {
    var form := new CreateVideo.CreateVideoForm(Some(saved));
    var request := form.Submit();
    assert request == Some(CreateVideo.FormRequest("", "8", "pc", "fr"));
    form.GenerationSettled(CreateVideo.Generated(Some("video"), Some(CreateVideo.JNum(balance))));
    assert form.user["tokens"] == CreateVideo.JNum(balance) && form.storedUser == Some(form.user);
    assert forall k :: k in saved && k != "tokens" ==> form.user[k] == saved[k];
    assert !form.loading && form.generatedVideo == Some("video");
  }

  /** A non-JPEG file is refused before any upload, even over a previously uploaded image. */
  method NonJpegDiscardsImage(jpeg: CreateVideo.ImageFile, other: CreateVideo.ImageFile, url: string, now: nat)
    requires jpeg.mimeType == CreateVideo.JpegType && other.mimeType != CreateVideo.JpegType && url != ""
  {
    var form := UploadedForm(jpeg, url, now);
    var upload := form.SelectImage(Some(other));
    assert upload.None?;
    assert form.error == CreateVideo.FormatError && form.imageFile.None?;
    assert form.previewUrl == "" && form.cloudinaryUrl == "";
    var request := form.Submit();
    assert request.Some? && request.value.FormRequest?;
  }

  /** A fresh sign-up form whose four inputs have been filled in. */
  method FilledSignup(username: string, email: string, emailConfirm: string, password: string)
    returns (form: Signup.SignupForm)
    ensures fresh(form) && form.Valid() && form.error == "" && !form.loading
    ensures "username" in form.formData && form.formData["username"] == username
    ensures form.formData["email"] == email && form.formData["emailConfirm"] == emailConfirm
    ensures "password" in form.formData && form.formData["password"] == password
  {
    form := new Signup.SignupForm();
    form.Change("username", username);
    form.Change("email", email);
    form.Change("emailConfirm", emailConfirm);
    form.Change("password", password);
  }

  /** Differing e-mails stop the sign-up before any request; fixing them and a server
      failure leave the server's message, and loading is off afterwards. */
  method SignupRetry(username: string, email: string, typo: string, password: string, message: string)
    requires username != "" && email != "" && password != ""
    requires email != typo && message != ""
  {
    var form := FilledSignup(username, email, typo, password);
    var request := form.Submit();
    assert request.None? && form.error == Signup.MismatchError && !form.loading;
    form.Change("emailConfirm", email);
    request := form.Submit();
    assert request.Some? && request.value["emailConfirm"] == email && form.loading && form.error == "";
    assert request.value["username"] == username && request.value["password"] == password;
    var next := form.RegisterSettled(Signup.RegisterFailed(Some(message)));
    assert next.None? && form.error == message && !form.loading;
    request := form.Submit();
    next := form.RegisterSettled(Signup.Registered);
    assert next == Some("login") && !form.loading;
  }

  /** Logging out from the sidebar navigates to "home": the public layout with the landing content. */
  method LogoutShowsLanding()
  {
    var nav := new App.Navigator(true);
    assert App.IsAuthPage(nav.currentPage);
    nav.Press(App.MobileCreate, true);
    assert !App.LayoutFor(nav.currentPage).footer;
    nav.Navigate("home");
    assert App.LayoutFor(nav.currentPage) == App.Layout(false, false, true, App.LandingContent, true);
    nav.Press(App.Logo, false);
    assert nav.currentPage == App.HomePage;
  }
}
