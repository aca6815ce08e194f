/**
 * The listing form component itself (src/components/animalAddForm.jsx): its
 * state, the handlers that change it, and the submission step that
 * validates, assembles the multipart payload and maps the reply of the
 * creation endpoint to the two messages the form shows.
 */
module Submission {
  import opened Wrappers
  import opened FormRecord
  import opened FormValidation

  const SuccessText: string := "Объявление успешно добавлено!"
  const SendFailureText: string := "Произошла ошибка при отправке данных."

  /** A multipart value: a text part or a file part. `form.append` turns the number 1 or 0 into text. */
  datatype Part = Text(text: string) | Upload(file: File)

  datatype Slot = Slot1 | Slot2 | Slot3

  /** The keys of the multipart payload. */
  datatype Key =
    | NameKey | PhoneKey | EmailKey | DistrictKey | KindKey | PasswordKey | PasswordConfirmationKey
    | ConfirmKey | MarkKey | DescriptionKey | PhotoKey(slot: Slot)

  /** The name each key goes by on the wire. */
  function WireName(k: Key): string {
    match k
    case NameKey => "name"
    case PhoneKey => "phone"
    case EmailKey => "email"
    case DistrictKey => "district"
    case KindKey => "kind"
    case PasswordKey => "password"
    case PasswordConfirmationKey => "password_confirmation"
    case ConfirmKey => "confirm"
    case MarkKey => "mark"
    case DescriptionKey => "description"
    case PhotoKey(Slot1) => "photos1"
    case PhotoKey(Slot2) => "photos2"
    case PhotoKey(Slot3) => "photos3"
  }

  /** No two keys share a wire name, so the key datatype loses nothing. */
  lemma WireNamesDistinct(a: Key, b: Key)
    requires WireName(a) == WireName(b)
    ensures a == b
  {
  }

  datatype Entry = Entry(key: Key, part: Part)

  /** The text parts that always lead the payload, in the order they are appended. */
  const LeadingKeys: seq<Key> := [NameKey, PhoneKey, EmailKey, DistrictKey, KindKey]
  /** The text parts appended only when the user registers. */
  const PasswordKeys: seq<Key> := [PasswordKey, PasswordConfirmationKey]
  /** The text parts that always follow. */
  const TrailingKeys: seq<Key> := [ConfirmKey, MarkKey, DescriptionKey]

  function TextKeys(registering: bool): seq<Key> {
    LeadingKeys + (if registering then PasswordKeys else []) + TrailingKeys
  }

  /** The record field each text key is read from; `confirm` is sent as `1` or `0`. */
  function TextValue(f: FormData, key: Key): string {
    match key
    case NameKey => f.name
    case PhoneKey => f.phone
    case EmailKey => f.email
    case DistrictKey => f.district
    case KindKey => f.kind
    case PasswordKey => f.password
    case PasswordConfirmationKey => f.passwordConfirmation
    case ConfirmKey => if f.confirm then "1" else "0"
    case MarkKey => f.mark
    case DescriptionKey => f.description
    case PhotoKey(_) => ""
  }

  function SlotFiles(f: FormData, s: Slot): Option<seq<File>> {
    match s
    case Slot1 => f.photos1
    case Slot2 => f.photos2
    case Slot3 => f.photos3
  }

  /** A slot is uploaded when it is neither `null` nor an empty file list. */
  predicate Uploaded(f: FormData, s: Slot) {
    SlotFiles(f, s).Some? && |SlotFiles(f, s).value| > 0
  }

  /** The uploaded slots, in slot order. */
  function UploadedSlots(f: FormData): (r: seq<Slot>)
    ensures forall s :: s in r <==> Uploaded(f, s)
    ensures |r| <= 3
  {
    (if Uploaded(f, Slot1) then [Slot1] else [])
    + (if Uploaded(f, Slot2) then [Slot2] else [])
    + (if Uploaded(f, Slot3) then [Slot3] else [])
  }

  /** The text part sent for key `k`. */
  function TextEntry(f: FormData, k: Key): Entry {
    Entry(k, Text(TextValue(f, k)))
  }

  /** The file part sent for an uploaded slot: its first file. */
  function PhotoEntry(f: FormData, s: Slot): Entry
    requires Uploaded(f, s)
  {
    Entry(PhotoKey(s), Upload(SlotFiles(f, s).value[0]))
  }

  /** `t` holds one text part per key of `TextKeys(registering)`, in that order. */
  ghost predicate IsTextPart(t: seq<Entry>, f: FormData, registering: bool) {
    var keys := TextKeys(registering);
    |t| == |keys| && forall i :: 0 <= i < |keys| ==> t[i] == TextEntry(f, keys[i])
  }

  /** `p` holds the file part of each uploaded slot, in slot order. */
  ghost predicate IsPhotoPart(p: seq<Entry>, f: FormData) {
    var slots := UploadedSlots(f);
    |p| == |slots| && forall j :: 0 <= j < |slots| ==> p[j] == PhotoEntry(f, slots[j])
  }

  /** `form` is the payload built from record `f`: the text parts, then the file parts. */
  ghost predicate IsPayload(form: seq<Entry>, f: FormData, registering: bool) {
    var n := |TextKeys(registering)|;
    n <= |form| && IsTextPart(form[..n], f, registering) && IsPhotoPart(form[n..], f)
  }

  /** The `FormData` assembly of `handleSubmit`, one `append` after another. */
  method AssemblePayload(f: FormData, registering: bool) returns (form: seq<Entry>)
    ensures IsPayload(form, f, registering)
  {
    form := [];
    form := form + [Entry(NameKey, Text(f.name))];
    form := form + [Entry(PhoneKey, Text(f.phone))];
    form := form + [Entry(EmailKey, Text(f.email))];
    form := form + [Entry(DistrictKey, Text(f.district))];
    form := form + [Entry(KindKey, Text(f.kind))];
    if registering {
      form := form + [Entry(PasswordKey, Text(f.password))];
      form := form + [Entry(PasswordConfirmationKey, Text(f.passwordConfirmation))];
    }
    form := form + [Entry(ConfirmKey, Text(if f.confirm then "1" else "0"))];
    form := form + [Entry(MarkKey, Text(f.mark))];
    form := form + [Entry(DescriptionKey, Text(f.description))];
    ghost var text := form;
    TextPartInOrder(f, registering, text);
    form := AppendUploads(form, f);
  }

  /** The three photo appends of `handleSubmit`: each slot's first file, when the slot holds one. */
  method AppendUploads(form: seq<Entry>, f: FormData) returns (out: seq<Entry>)
    ensures |form| <= |out| && out[..|form|] == form && IsPhotoPart(out[|form|..], f)
  {
    out := form;
    ghost var photos: seq<Entry> := [];
    if f.photos1.Some? && |f.photos1.value| > 0 {
      out := out + [Entry(PhotoKey(Slot1), Upload(f.photos1.value[0]))];
      photos := photos + [PhotoEntry(f, Slot1)];
    }
    if f.photos2.Some? && |f.photos2.value| > 0 {
      out := out + [Entry(PhotoKey(Slot2), Upload(f.photos2.value[0]))];
      photos := photos + [PhotoEntry(f, Slot2)];
    }
    if f.photos3.Some? && |f.photos3.value| > 0 {
      out := out + [Entry(PhotoKey(Slot3), Upload(f.photos3.value[0]))];
      photos := photos + [PhotoEntry(f, Slot3)];
    }
    PhotoPartInOrder(f, photos);
    assert out == form + photos;
    assert out[..|form|] == form && out[|form|..] == photos;
  }

  /** The text appends, spelled out, are the text part of the payload. */
  lemma TextPartInOrder(f: FormData, registering: bool, text: seq<Entry>)
    requires text ==
      [TextEntry(f, NameKey), TextEntry(f, PhoneKey), TextEntry(f, EmailKey), TextEntry(f, DistrictKey), TextEntry(f, KindKey)]
      + (if registering then [TextEntry(f, PasswordKey), TextEntry(f, PasswordConfirmationKey)] else [])
      + [TextEntry(f, ConfirmKey), TextEntry(f, MarkKey), TextEntry(f, DescriptionKey)]
    ensures IsTextPart(text, f, registering)
  {
    if registering {
      assert TextKeys(true) == [NameKey, PhoneKey, EmailKey, DistrictKey, KindKey,
                                PasswordKey, PasswordConfirmationKey, ConfirmKey, MarkKey, DescriptionKey];
    } else {
      assert TextKeys(false) == [NameKey, PhoneKey, EmailKey, DistrictKey, KindKey, ConfirmKey, MarkKey, DescriptionKey];
    }
  }

  /** The conditional photo appends, spelled out, are the photo part of the payload. */
  lemma PhotoPartInOrder(f: FormData, photos: seq<Entry>)
    requires photos ==
      (if Uploaded(f, Slot1) then [PhotoEntry(f, Slot1)] else [])
      + (if Uploaded(f, Slot2) then [PhotoEntry(f, Slot2)] else [])
      + (if Uploaded(f, Slot3) then [PhotoEntry(f, Slot3)] else [])
    ensures IsPhotoPart(photos, f)
  {
  }

  /** Whether some part of the payload has key `k`. */
  predicate HasKey(form: seq<Entry>, k: Key) {
    exists i :: 0 <= i < |form| && form[i].key == k
  }

  /** A payload's keys are its text keys followed by the photo keys of the uploaded slots. */
  lemma {:induction false} PayloadKeys(form: seq<Entry>, f: FormData, registering: bool, k: Key)
    requires IsPayload(form, f, registering)
    ensures HasKey(form, k) <==> k in TextKeys(registering) || (k.PhotoKey? && Uploaded(f, k.slot))
  {
    var keys := TextKeys(registering);
    var n := |keys|;
    var slots := UploadedSlots(f);
    if HasKey(form, k) {
      var i :| 0 <= i < |form| && form[i].key == k;
      if i < n {
        assert form[..n][i] == form[i];
        assert keys[i] == k;
      } else {
        assert form[n..][i - n] == form[i];
        assert slots[i - n] == k.slot;
      }
    }
    if k in keys {
      var i :| 0 <= i < n && keys[i] == k;
      assert form[..n][i] == form[i];
    }
    if k.PhotoKey? && Uploaded(f, k.slot) {
      var j :| 0 <= j < |slots| && slots[j] == k.slot;
      assert form[n..][j] == form[n + j];
      assert form[n + j].key == k;
    }
  }

  /** The password parts are in the payload exactly when the user registers. */
  lemma {:induction false} PasswordSentIffRegistering(form: seq<Entry>, f: FormData, registering: bool)
    requires IsPayload(form, f, registering)
    ensures HasKey(form, PasswordKey) <==> registering
    ensures HasKey(form, PasswordConfirmationKey) <==> registering
  {
    PayloadKeys(form, f, registering, PasswordKey);
    PayloadKeys(form, f, registering, PasswordConfirmationKey);
    assert PasswordKey in TextKeys(true) && PasswordConfirmationKey in TextKeys(true);
  }

  /** A photo part is in the payload exactly when its slot is neither `null` nor empty, and it carries the slot's first file. */
  lemma {:induction false} PhotoSentIffUploaded(form: seq<Entry>, f: FormData, registering: bool, s: Slot)
    requires IsPayload(form, f, registering)
    ensures HasKey(form, PhotoKey(s)) <==> Uploaded(f, s)
    ensures Uploaded(f, s) ==> PhotoEntry(f, s) in form
  {
    PayloadKeys(form, f, registering, PhotoKey(s));
    var n := |TextKeys(registering)|;
    var slots := UploadedSlots(f);
    if Uploaded(f, s) {
      var j :| 0 <= j < |slots| && slots[j] == s;
      assert form[n..][j] == form[n + j];
    }
  }

  /** Consent travels as the text `1` when given and `0` otherwise, right after the password parts. */
  lemma {:induction false} ConfirmSentAsFlag(form: seq<Entry>, f: FormData, registering: bool)
    requires IsPayload(form, f, registering)
    ensures var i := if registering then 7 else 5;
      i < |form| && form[i] == Entry(ConfirmKey, Text(if f.confirm then "1" else "0"))
  {
    var n := |TextKeys(registering)|;
    var i := if registering then 7 else 5;
    assert TextKeys(registering)[i] == ConfirmKey;
    assert form[..n][i] == form[i];
  }

  /** The reply of the creation endpoint, or the failure that sends the handler into its `catch`. */
  datatype Response = Answered(status: int, errorDetail: string) | TransportFailure

  /** The form component's state. */
  class AddPetForm {
    var isRegistered: bool
    var formData: FormData
    var errorMessage: string
    var successMessage: string

    /** The component as it mounts. */
    constructor ()
      ensures !isRegistered && formData == InitialForm
      ensures errorMessage == [] && successMessage == []
    {
      isRegistered := false;
      formData := InitialForm;
      errorMessage := [];
      successMessage := [];
    }

    /** `handleInputChange`: the control's value lands in its own field only. */
    method HandleInputChange(e: InputEvent)
      requires BoundControl(e.name, e.kind)
      modifies this
      ensures formData == Update(old(formData), e)
      ensures Get(formData, e.name) == Written(e)
      ensures forall g :: g != e.name ==> Get(formData, g) == Get(old(formData), g)
      ensures isRegistered == old(isRegistered)
      ensures errorMessage == old(errorMessage) && successMessage == old(successMessage)
    {
      formData := Update(formData, e);
    }

    /** `handleRegisterChange`: the selector's value `"1"` means the user registers. */
    method HandleRegisterChange(value: string)
      modifies this
      ensures isRegistered == (value == "1")
      ensures formData == old(formData)
      ensures errorMessage == old(errorMessage) && successMessage == old(successMessage)
    {
      isRegistered := value == "1";
    }

    /**
     * The mount effect. `token` is the stored session token (`null` when
     * absent) and `lookup` what the current-user request yields (`null` on a
     * non-200 reply or a failure). Only a truthy token triggers the request,
     * and only a returned user is merged.
     */
    method RestoreSession(token: Option<string>, lookup: Option<UserInfo>)
      modifies this
      ensures token.Some? && token.value != [] && lookup.Some? ==> formData == Prefill(old(formData), lookup.value)
      ensures !(token.Some? && token.value != [] && lookup.Some?) ==> formData == old(formData)
      ensures isRegistered == old(isRegistered)
      ensures errorMessage == old(errorMessage) && successMessage == old(successMessage)
    {
      if token.Some? && token.value != [] {
        if lookup.Some? {
          formData := Prefill(formData, lookup.value);
        }
      }
    }

    /**
     * `handleSubmit`, with the reply the creation endpoint would give. On a
     * validation failure the message becomes the error, nothing is sent and
     * the success message is left as it was. Otherwise the payload is sent
     * and the reply decides both messages.
     */
    method HandleSubmit(response: Response) returns (sent: Option<seq<Entry>>)
      modifies this
      ensures formData == old(formData) && isRegistered == old(isRegistered)
      ensures ValidateForm(formData, isRegistered) != [] ==>
        sent.None? && errorMessage == ValidateForm(formData, isRegistered) && successMessage == old(successMessage)
      ensures ValidateForm(formData, isRegistered) == [] ==>
        sent.Some? && IsPayload(sent.value, formData, isRegistered)
      ensures ValidateForm(formData, isRegistered) == [] && response.Answered? && response.status == 200 ==>
        successMessage == SuccessText && errorMessage == []
      ensures ValidateForm(formData, isRegistered) == [] && response.Answered? && response.status != 200 ==>
        errorMessage == response.errorDetail && successMessage == []
      ensures ValidateForm(formData, isRegistered) == [] && response.TransportFailure? ==>
        errorMessage == SendFailureText && successMessage == []
    {
      var validationError := ValidateForm(formData, isRegistered);
      if validationError != [] {
        errorMessage := validationError;
        sent := None;
        return;
      }
      var form := AssemblePayload(formData, isRegistered);
      sent := Some(form);
      match response {
        case Answered(status, detail) =>
          if status == 200 {
            successMessage := SuccessText;
            errorMessage := [];
          } else {
            errorMessage := detail;
            successMessage := [];
          }
        case TransportFailure =>
          errorMessage := SendFailureText;
          successMessage := [];
      }
    }
  }
}
