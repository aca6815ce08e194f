# Pet listing form and detail view — a Dafny model

This project models the client-side decision logic of two React components of a
lost-and-found pet listings site:

- **The listing form** (`AddPetForm`, src/components/animalAddForm.jsx). It keeps a
  record of form fields and updates it one control at a time. It can pre-fill the
  identity fields of a known user. On submit it validates the record with six
  ordered rules, assembles a multipart payload, and maps the creation endpoint's
  reply to an error message and a success message.
- **The detail view** (`PetDetail`, src/components/petDetail.jsx). It drops the empty
  photo slots, resolves each photo against the media base, shows a placeholder when
  no photo exists, and replaces each missing text field with a fixed label.

Modules:

- `Wrappers` holds `Option`. `None` stands for JavaScript `null`.
- `JsText` holds the JavaScript string semantics used by both components:
  - the `\s` class, written out as the ECMAScript WhiteSpace and LineTerminator
    code points;
  - `String.prototype.trim`;
  - the decimal text of a number in a template literal.
- `FormRecord` holds the `formData` record, the change handler's record update and
  the pre-fill merge.
- `FormValidation` holds `validateForm`. Each regular expression is a predicate over
  characters. The e-mail pattern is the existential choice of an `@` and a `.` split.
- `Submission` holds the payload, its assembly by successive appends, and the class
  `AddPetForm`. The class holds the component state: `isRegistered`, `formData`,
  `errorMessage`, `successMessage`. Each handler is a method on it.
- `PetDetail` holds the detail view as pure functions.

Inputs that come from outside the component are parameters:

- the stored session token is `Option<string>`;
- the current-user lookup is `Option<UserInfo>`;
- the creation endpoint's reply is `Response`, which is either `Answered(status,
  errorDetail)` or `TransportFailure`.

Two consequences of the code worth noting:

- An empty `FileList` in photo slot 1 is truthy, so the required-fields rule lets it
  through. That payload then carries no `photos1` part. `RequiredFieldsCatchAll`
  states this, and `PhotoSentIffUploaded` states the payload side.
- After a validation failure, only the error message is set. A success message from
  an earlier submission stays.

`Render` is a Dafny function, so equal records give equal views. Nothing needs to be
proved for that.

## Model

| member | source | states |
|---|---|---|
| `FormRecord.FormDeterminedByFields` | src/components/animalAddForm.jsx:5-20 | two records that agree on every property are equal, so the property-wise contracts below pin the whole record |
| `FormRecord.Update` | src/components/animalAddForm.jsx:61-67 | the field named by the event gets the value the control writes (`checked` for the checkbox, the file list for a file input, `value` otherwise); every other property and `register` are unchanged |
| `FormRecord.UpdateLastWriteWins` | src/components/animalAddForm.jsx:61-67 | two changes of the same control leave the record as the second change alone would |
| `FormRecord.Prefill` | src/components/animalAddForm.jsx:30-35 | name, phone and email take the user's values; every other property is unchanged |
| `JsText.Trim` | src/components/animalAddForm.jsx:76 | `trim` yields the empty string exactly when the name is all whitespace; otherwise the result starts and ends with non-whitespace and is the slice between the two whitespace runs |
| `JsText.Decimal` | src/components/petDetail.jsx:21 | the number in the alt text is written as a non-empty string of ASCII digits with no leading zero |
| `JsText.DecimalRoundTrip` | src/components/petDetail.jsx:21 | reading the rendered digits back as a decimal number gives the photo's 1-based position, so the text names exactly that number |
| `FormValidation.MessagesDistinct` | src/components/animalAddForm.jsx:77-105 | the six validation messages are non-empty and pairwise different, so a message identifies its rule |
| `FormValidation.FirstFailingIndex` | src/components/animalAddForm.jsx:73-109 | the position of the first rule that fails in the order name, phone, email, password, confirmation, required fields: every earlier rule passes and that one fails |
| `FormValidation.FailedRuleIsFirstFailing` | src/components/animalAddForm.jsx:73-109 | the chain of early returns, with the name check written with `trim`, stops exactly at the first failing rule of that order |
| `FormValidation.ValidateForm` | src/components/animalAddForm.jsx:73-109 | the result is the message of the first failing rule, or `''` when none fails |
| `FormValidation.ValidateFormFirstFailure` | src/components/animalAddForm.jsx:73-109 | `''` exactly when every rule passes; otherwise some rule fails, every rule before it passes, and the result is that rule's message |
| `FormValidation.NameRuleCharacterization` | src/components/animalAddForm.jsx:75-77 | `validateForm` returns the name message exactly when the name is empty or all whitespace, or holds a character outside а-я, А-Я, ё, Ё, whitespace and `-`, whatever the other fields hold |
| `FormValidation.LatinOrDigitNameRejected` | src/components/animalAddForm.jsx:75-77 | a Latin letter or an ASCII digit anywhere in the name yields the name message |
| `FormValidation.BlankNameRejected` | src/components/animalAddForm.jsx:76-77 | an empty or all-whitespace name yields the name message, although `\s` is in the pattern's class |
| `FormValidation.PhoneRuleCharacterization` | src/components/animalAddForm.jsx:81-84 | the phone passes exactly when every character is an ASCII digit, except an optional leading `+`, and 1 to 15 digits follow the sign |
| `FormValidation.EmailPatternIsForcedSplit` | src/components/animalAddForm.jsx:87-90 | the pattern's split is forced: it matches exactly when the first `@` and the last `.` split the address into a non-empty local part, a non-empty domain and a 2-6 letter label |
| `FormValidation.EmailLabelBounds` | src/components/animalAddForm.jsx:87 | `x@y.zz` and `x@y.zzzzzz` match; one-letter and seven-letter labels do not; an address without `@` never matches |
| `FormValidation.PasswordsIgnoredUnlessRegistering` | src/components/animalAddForm.jsx:93-101 | when not registering, any change to password or confirmation leaves the result of `validateForm` unchanged |
| `FormValidation.PasswordTooShort` | src/components/animalAddForm.jsx:93 | no password shorter than seven characters meets the policy |
| `FormValidation.PasswordRuleOutcome` | src/components/animalAddForm.jsx:93-96 | when registering, after valid name, phone and e-mail, the result is the password message exactly when the password is shorter than 7, holds a character other than an ASCII letter or digit, or lacks a lower-case letter, an upper-case letter or a digit |
| `FormValidation.PasswordLengthBoundary` | src/components/animalAddForm.jsx:93 | the examples at the length boundary: `Abcdef1` (7 characters, every class present) passes the policy and `Abcde1` (6) does not |
| `FormValidation.MismatchedConfirmationRejected` | src/components/animalAddForm.jsx:93-101 | when registering, a password that passes the policy but differs from its confirmation, after valid name, phone and email, yields the "passwords must match" message |
| `FormValidation.PatternsNonEmpty` | src/components/animalAddForm.jsx:104 | a name, phone or e-mail that matches its pattern is non-empty, so the catch-all's tests of those three never fire |
| `FormValidation.RequiredFieldsCatchAll` | src/components/animalAddForm.jsx:104-108 | once the first five rules pass, the result is the required-fields message exactly when slot 1 is `null` or consent is missing, and `''` otherwise (an empty file list passes) |
| `Submission.WireNamesDistinct` | src/components/animalAddForm.jsx:123-146 | no two payload keys share a wire name |
| `Submission.UploadedSlots` | src/components/animalAddForm.jsx:139-147 | a slot is listed exactly when it is neither `null` nor an empty file list; at most three slots |
| `Submission.AssemblePayload` | src/components/animalAddForm.jsx:122-147 | the built payload is the text parts name, phone, email, district, kind, then password and password_confirmation when registering, then confirm, mark, description, each with its field's value, followed by the photo parts |
| `Submission.AppendUploads` | src/components/animalAddForm.jsx:138-147 | the three conditional appends keep what was there and add the first file of each uploaded slot, in slot order |
| `Submission.TextPartInOrder` | src/components/animalAddForm.jsx:123-136 | that appended sequence of text parts is the specified text part for both values of `isRegistered` |
| `Submission.PhotoPartInOrder` | src/components/animalAddForm.jsx:139-147 | the three conditional photo parts, in slot order, are the specified photo part |
| `Submission.PayloadKeys` | src/components/animalAddForm.jsx:122-147 | a key is in the payload exactly when it is one of the text keys or the photo key of an uploaded slot |
| `Submission.PasswordSentIffRegistering` | src/components/animalAddForm.jsx:129-132 | the password and password_confirmation parts are present exactly when the user registers |
| `Submission.PhotoSentIffUploaded` | src/components/animalAddForm.jsx:139-147 | `photosN` is present exactly when its slot is non-null and non-empty, and then it carries the slot's first file |
| `Submission.ConfirmSentAsFlag` | src/components/animalAddForm.jsx:134 | consent is sent as the text `1` or `0`, directly after the password parts (position 7 when registering, 5 otherwise) |
| `Submission.AddPetForm.constructor` | src/components/animalAddForm.jsx:4-22 | the component mounts not registering, with the initial record and both messages empty |
| `Submission.AddPetForm.HandleInputChange` | src/components/animalAddForm.jsx:61-67 | only the named field of `formData` changes, to the written value; registration state and messages are untouched |
| `Submission.AddPetForm.HandleRegisterChange` | src/components/animalAddForm.jsx:69-71 | `isRegistered` becomes whether the selector's value is `"1"`; nothing else changes |
| `Submission.AddPetForm.RestoreSession` | src/components/animalAddForm.jsx:24-39 | with a truthy token and a returned user, the record is pre-filled; otherwise, including a failed lookup, nothing changes |
| `Submission.AddPetForm.HandleSubmit` | src/components/animalAddForm.jsx:111-168 | if validation fails: the message becomes the error, nothing is sent, the success message stays. Otherwise the payload is sent. Status 200 sets the success text and clears the error. Any other status sets the server's detail as the error and clears the success. A transport failure sets the generic error and clears the success |
| `PetDetail.KeepTruthy` | src/components/petDetail.jsx:4-8 | `filter(Boolean)` keeps exactly the non-empty present values, never lengthens the list, and keeps nothing empty |
| `PetDetail.KeepTruthyAppend` | src/components/petDetail.jsx:4-8 | filtering a concatenation concatenates the filtered parts, so the input order is kept |
| `PetDetail.KeepTruthySingle` | src/components/petDetail.jsx:4-8 | a one-element list keeps its element exactly when the element is truthy |
| `PetDetail.Photos` | src/components/petDetail.jsx:4-8 | the photo list is the truthy ones of photos1, photos2, photos3, in slot order, so at most three |
| `PetDetail.PhotoAlt` | src/components/petDetail.jsx:21 | with a truthy mark the alt text is the mark; otherwise it is `Фото ` followed by ASCII digits without a leading zero that read back as the photo's 1-based position |
| `PetDetail.GalleryShowsExactlyExistingPhotos` | src/components/petDetail.jsx:4-19 | a path is shown under the media base exactly when some photo slot holds it as a non-empty string |
| `PetDetail.GalleryAltsNumberPositions` | src/components/petDetail.jsx:16-21 | without a mark, image i is numbered i + 1 (its position in the filtered list), so no two images share an alt text |
| `PetDetail.RenderPhotoPanel` | src/components/petDetail.jsx:14-32 | the placeholder appears exactly when no slot is truthy; otherwise the gallery shows 1 to 3 images |
| `PetDetail.Render` | src/components/petDetail.jsx:3-61 | the view shows the fixed placeholder image exactly when the photo list is empty; otherwise exactly as many images as photos, image i with source media base + photos[i] and the alt text for position i, beside the text panel |
| `PetDetail.SlotsOneAndThreeShown` | src/components/petDetail.jsx:4-24 | with photos in slots 1 and 3 only, exactly two images are shown, slot 1 first, both under the media base |
| `PetDetail.AltNumbersFollowFilteredPosition` | src/components/petDetail.jsx:16-21 | without a mark, a lone photo in slot 3 is labelled `Фото 1`: its number is its position in the filtered list, not its slot |
| `PetDetail.MarkNamesEveryPhoto` | src/components/petDetail.jsx:21 | with a truthy mark, every image's alt text is the mark |
| `PetDetail.InfoNeverBlank` | src/components/petDetail.jsx:35-53 | no entry of the text panel is empty |
| `PetDetail.InfoFieldsIndependent` | src/components/petDetail.jsx:35-53 | changing one field of the record changes only that field's entry, which becomes the new value when truthy and that field's own fixed label otherwise; this includes a missing description |

## Left out

- The network calls are not modelled. These are the current-user `fetch` (src/components/animalAddForm.jsx:41-59), the listing `POST` (151-156) and `response.json()`. Their outcomes are parameters instead: `Option<UserInfo>` for the lookup and `Response` for the creation reply.
- A JSON parse failure on the creation reply, and a non-200 body without `error`, both end in the source's `catch`. The model folds both into `TransportFailure`.
- The shape of `data.error.errors` is the external server's business. The model treats it as an opaque string carried by `Answered`.
- `localStorage.getItem('token')` is browser storage. The model takes the token as an `Option<string>` parameter.
- `console.error` in the lookup is a log side effect and is not modelled.
- React hooks, the timing of `useEffect`, `async`/`await` and overlapping submissions are not modelled. Each handler is one synchronous state transition of `AddPetForm`.
- All JSX markup, CSS classes, inline styles, React `key`s and the unwired "Связаться" button are not modelled. They are layout, not decisions.
- File contents and the `FileList` object are not modelled. `File` is an opaque type; a slot is `null` or a sequence of files.
- `FormRecord.Update` and `Submission.AddPetForm.HandleInputChange` require the control type to match the field. This is how the form's markup wires its controls (src/components/animalAddForm.jsx:177-359). A control writing a value of the wrong type into a field is not modelled.
- `Submission.AddPetForm.RestoreSession`: a user record that lacks `name`, `phone` or `email` would write `undefined` into the form. This is not modelled; the record always carries three strings.
- `PetDetail`: record properties are strings or absent. Numbers and other JavaScript values, which `||` and `filter(Boolean)` also test for truthiness, are not modelled.
- JavaScript regular expressions without the `u` flag work on UTF-16 code units, while Dafny strings here are sequences of code points. No outcome differs: every class in the patterns is inside the Basic Multilingual Plane, so a character outside it fails every pattern either way.
- The password pattern's `.*` inside its lookaheads does not cross line terminators. This does not matter, because the pattern accepts only ASCII letters and digits.
