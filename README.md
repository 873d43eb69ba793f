# Video-generation client: form and navigation rules

This project models the client-side rules of a browser front end for an AI
video-generation product. It covers three pieces: the video-creation form, the
application shell's page navigation, and the sign-up form. Everything else in the
client fetches data, stores it or renders it.

- **Word counter** (`Words`). It models `text.trim().split(/\s+/).filter(w => w.length > 0).length`
  with explicit `Trim`, `Split` and `NonEmpty` functions over ECMAScript's whitespace
  set. `Split` is proved to be the unique cut of the text into pieces without white
  space separated by white-space runs. The count is proved equal to an independent
  definition: the number of positions where a maximal run of non-space characters begins.
- **Video-creation form** (`CreateVideo.CreateVideoForm`). The form's state is a class
  with one method per event handler. Each asynchronous handler is split at its
  `await`:
  - a start method does the synchronous part and returns the request it sends;
  - a `…Settled` method takes the abstract server response.
  The rules the handlers apply are pure functions with their own contracts:
  - which request a submit sends (`RequestFor`);
  - which upload responses deliver a URL (`UploadedUrl`);
  - the cache-busting preview address (`PreviewUrl`, using `Decimal.Show` for `${Date.now()}`);
  - the token-balance merge (`MergeTokens`).
  Two invariants are kept:
  - `PromptFits()`: the stored prompt never has more than 300 words (stated with the
    reference count, which equals the word counter);
  - `ImageFits()`: a kept file is a JPEG, and a preview exists exactly when an uploaded URL does.
- **Application shell** (`App`). The initial page, the classification of authenticated
  pages, the content dispatch with its default, the layout and footer rule, and the
  targets of the shell's own controls. `Navigator` holds the single `currentPage`.
- **Sign-up form** (`Signup.SignupForm`). Field-wise edits of the form record. A submit
  clears the error, checks the e-mail confirmation, sets loading and sends the whole
  record. The settle step navigates to login on success, or shows the server message
  or the fallback on failure. Loading is off afterwards in both cases.
- `Scenarios` holds client methods. They drive these classes through event sequences
  and assert what the contracts alone guarantee:
  - a failed upload makes the next submit an error instead of a request;
  - a successful upload's URL is sent in the JSON request;
  - a reported balance replaces only the user's tokens and is stored;
  - a non-JPEG file discards the image;
  - a sign-up is retried after a mismatch and after a server failure;
  - logging out leads to the landing page.

Inputs that come from outside are parameters:
- server responses are datatypes (`UploadResponse`, `GenerateResponse`, `RegisterResponse`);
- whether a non-empty session token is stored is a `bool`;
- the clock value is a `nat`;
- the stored user entry is an `Option` of a map.

## Model

| member | source | states |
|---|---|---|
| `Words.TrimStart` | src/CreateVideo.js:75 | removes exactly the maximal leading whitespace run: the result is a suffix whose first character is not whitespace, and everything cut off is whitespace |
| `Words.TrimEnd` | src/CreateVideo.js:75 | removes exactly the maximal trailing whitespace run: the result is a prefix whose last character is not whitespace, and everything cut off is whitespace |
| `Words.Trim` | src/CreateVideo.js:75 | `trim()` leaves neither end as whitespace and never lengthens the text |
| `Words.TrimInfix` | src/CreateVideo.js:75 | `trim()` keeps exactly the text between the leading and trailing whitespace runs: the result occurs in the text at some offset, and every character before and after it is whitespace |
| `Words.IsSpace` | src/CreateVideo.js:75 | the characters `trim()` and `\s` treat as white space are exactly ECMAScript's WhiteSpace (TAB, VT, FF, ZWNBSP, the Unicode space separators) and LineTerminator (LF, CR, LS, PS) characters |
| `Words.Split` | src/CreateVideo.js:75 | `split(/\s+/)` yields at least one piece; no piece contains whitespace; every piece but the first and the last is non-empty; the first piece is empty exactly when the text is empty or starts with whitespace |
| `Words.SplitJoin` | src/CreateVideo.js:75 | the text is the split pieces joined back with a non-empty whitespace run between each two, so splitting loses only the separators |
| `Words.SplitUnique` | src/CreateVideo.js:75 | any cut of the text into whitespace-free pieces, with non-empty inner pieces and non-empty whitespace separators, is the split: the pieces are the text between maximal whitespace runs, in order |
| `Words.NonEmpty` | src/CreateVideo.js:75 | `filter(w => w.length > 0)` keeps every non-empty piece and only non-empty pieces of the input, and never more of them |
| `Words.NonEmptyAppend` | src/CreateVideo.js:75 | the filter keeps the order: filtering a concatenation is concatenating the filtered parts, and a single piece is kept exactly when it is non-empty |
| `Words.WordCount` | src/CreateVideo.js:75 | the word count equals the number of maximal runs of non-whitespace characters |
| `Words.WordCountZeroIff` | src/CreateVideo.js:130 | the count is 0 exactly when the text is empty or all whitespace |
| `Decimal.Show` | src/CreateVideo.js:62 | `${n}` for the clock value is a non-empty string of decimal digits with no leading zero |
| `Decimal.ParseShow` | src/CreateVideo.js:62 | reading the rendered clock value back gives the same number |
| `Decimal.ShowInjective` | src/CreateVideo.js:62 | different clock values give different preview addresses |
| `CreateVideo.UploadedUrl` | src/CreateVideo.js:52-59 | an upload delivers a URL only for an ok response whose `url` field is present and non-empty; a non-ok response, a missing or empty `url`, or a thrown request delivers none |
| `CreateVideo.PreviewUrl` | src/CreateVideo.js:62 | the preview is the uploaded URL followed by `?t=` and digits; those digits read back as the clock value and have no leading zero (a "0" there means the clock value is 0 and the digits are just "0"), so they are the decimal form of the clock value |
| `CreateVideo.RequestFor` | src/CreateVideo.js:92-111 | an uploaded URL gives a JSON request carrying that URL; a selected file without an uploaded URL gives no request; neither gives a form-data request with no image; duration is always "8", and prompt, aspect ratio and language are the form's |
| `CreateVideo.SelectedImageIsSent` | src/CreateVideo.js:92-102 | when a file is selected, a request is either not sent at all or is the JSON request carrying a non-empty image URL: the image is never silently dropped |
| `CreateVideo.MergeTokens` | src/CreateVideo.js:116-119 | `tokens` is replaced only when `tokens_remaining` is present (`null` counts as present); every other user field keeps its value and no other key appears |
| `CreateVideo.CreateVideoForm.constructor` | src/CreateVideo.js:5-15 | initial state: empty prompt, no image, aspect ratio "pc", language "fr", nothing loading or uploading, no error or video, user taken from the stored entry or `{}`; both invariants hold |
| `CreateVideo.CreateVideoForm.RemoveImage` | src/CreateVideo.js:17-21 | clears exactly `imageFile`, `previewUrl` and `cloudinaryUrl` (its frame names only these) |
| `CreateVideo.CreateVideoForm.SelectImage` | src/CreateVideo.js:23-42 | with no file, nothing changes; a non-JPEG file sets the format error, clears file, preview and URL, and posts nothing; a JPEG clears the error, keeps the file, clears preview and URL, raises `uploadingImage` and is the file posted |
| `CreateVideo.CreateVideoForm.UploadSettled` | src/CreateVideo.js:43-69 | on a delivered URL, `cloudinaryUrl` is that URL and `previewUrl` is it stamped with the clock value; otherwise the upload error is set and URL and preview are not touched; `uploadingImage` is false after every outcome |
| `CreateVideo.CreateVideoForm.PreviewLoadFailed` | src/CreateVideo.js:190 | a preview that fails to load sets the load error and nothing else |
| `CreateVideo.CreateVideoForm.ChangePrompt` | src/CreateVideo.js:73-79 | an edit of at most 300 words replaces the prompt; a longer one leaves it unchanged; the prompt's word count stays at most 300 |
| `CreateVideo.CreateVideoForm.SetAspectRatio` | src/CreateVideo.js:219 | the format selector sets the aspect ratio only |
| `CreateVideo.CreateVideoForm.SetLanguage` | src/CreateVideo.js:232 | the language selector sets the language only |
| `CreateVideo.CreateVideoForm.Submit` | src/CreateVideo.js:81-111 | while an upload is pending nothing changes and nothing is sent; otherwise the video is cleared and the request is `RequestFor` of the current form; a sent request leaves loading on and the error empty; an unsent one leaves loading off and the generic generation error |
| `CreateVideo.CreateVideoForm.GenerationSettled` | src/CreateVideo.js:113-127 | success shows the returned video and merges the balance into the user and the stored entry (the store is written only when a balance came back); failure shows the server message or the generic one and keeps user and video; loading is false afterwards |
| `Common.OrElse` | src/CreateVideo.js:124 | JavaScript's `or` on a message with a fallback: a present, non-empty message wins; otherwise the fallback; a non-empty fallback makes the result non-empty |
| `App.InitialPage` | src/App.js:13-15 | the first page is "dashboard" exactly when a token is stored, and "home" otherwise |
| `App.IsAuthPage` | src/App.js:18 | a page belongs to the authenticated layout exactly when its content is the dashboard, projects or creation view |
| `App.RenderContent` | src/App.js:21-34 | each of the five named pages, and only it, gives its own view; any other value gives the landing content |
| `App.LayoutFor` | src/App.js:167-226 | the sidebar and mobile bar appear exactly on authenticated pages and the header exactly on the others; the content is `RenderContent` of the page |
| `App.FooterShownUnlessCreate` | src/App.js:174-225 | the footer appears on every page except "create": on every authenticated page but that one, and always on public pages |
| `App.InitialLayout` | src/App.js:13-34 | with a token the application opens on the dashboard in the authenticated layout; without one, on the landing content in the public layout |
| `App.Offers` | src/App.js:39-220 | a header control is pressable exactly where the header is drawn, a landing button exactly where the landing content is shown, a mobile-bar button exactly where the mobile bar is drawn |
| `App.Target` | src/App.js:39-220 | the mobile bar's buttons lead, inside the authenticated layout, to the dashboard, creation and projects views respectively; the logo leads where the application would open with the current token; the header login link leads to the login form and every sign-up link to the sign-up form |
| `App.Navigator.constructor` | src/App.js:13-15 | `currentPage` starts at the initial page for the stored token |
| `App.Navigator.Navigate` | src/App.js:24-32 | the `onNavigate` callback sets `currentPage` to any given page |
| `App.Navigator.Press` | src/App.js:179-220 | pressing a control drawn on the current page sets `currentPage` to that control's target |
| `Signup.SignupForm.constructor` | src/Signup.js:5-7 | the record starts with the four empty fields, no error, not loading |
| `Signup.SignupForm.Change` | src/Signup.js:9 | the named field takes the value; every other field keeps its value; only that key may be added |
| `Signup.SignupForm.Submit` | src/Signup.js:11-24 | differing e-mails set the mismatch error, send nothing and leave loading as it was; matching e-mails clear the error, turn loading on and send the whole record, `emailConfirm` included |
| `Signup.SignupForm.RegisterSettled` | src/Signup.js:23-31 | success leads to "login"; failure stays and shows the server message or "Erreur lors de l'inscription"; loading is false afterwards |

## Left out

- Network calls (`fetch` to the upload server, `api.post` to the generation and registration endpoints). Only their outcomes are modelled, as response datatypes.
- Browser storage. Token presence is a parameter; the stored `user` entry is a field and a constructor argument. Logging out from the sidebar (src/Sidebar.js:4-8) is modelled only as navigation to "home".
- `Date.now()`. The clock value is a parameter of `UploadSettled`.
- JSX rendering, styles and marketing content. This includes the word-count colour at src/CreateVideo.js:156, the disabled state of the submit buttons and the `key` that resets the file input.
- `alert` after a successful sign-up, and `console.error`.
- `CreateVideoForm.Submit` and `SignupForm.Submit` do not model the browser's form validation, which stops the submit before the handler runs: the `required` prompt (src/CreateVideo.js:166) and the `required` and `type="email"` sign-up inputs (src/Signup.js:49-61). The handlers accept any field values, as the code does.
- The other pages (dashboard, projects, login) and their data fetches.
- Interleaving of overlapping asynchronous handlers. Every start and settle method can be called in any order and the invariants still hold. Not modelled: `handleSubmit` merges the balance into the `user` captured when the handler was created; the model merges into the current user.
- JSON values. They are reduced to null, booleans, integers and strings (no floating point). A server `message` that is falsy but not a string (`0`, `false`) is treated as absent.
- A generation response without a `data` object throws inside the handler. It is modelled as `GenerationFailed(None)`.
- `Words.IsSpace` is written out as ECMAScript's fixed WhiteSpace and LineTerminator characters, taking the space separators from current Unicode. It is not tied to a particular engine's Unicode version.
- The message thrown for a file that was selected but never uploaded (src/CreateVideo.js:102) is never displayed. The catch shows the server message or the generic generation error, and this thrown error carries no server response. The model follows the code and shows the generic error.
