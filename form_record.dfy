/**
 * The `formData` record of the listing form (src/components/animalAddForm.jsx)
 * and the two ways the component rewrites it: the per-control change handler
 * and the merge of a known user's identity fields.
 */
module FormRecord {
  import opened Wrappers

  /** An uploaded file. Its contents never matter to the form, only its identity. */
  type File(==)

  /**
   * The form state. A photo slot is `null` until its file input fires a change
   * event, and afterwards holds the input's file list, which may be empty.
   * `register` is part of the initial state but no control writes it.
   */
  datatype FormData = FormData(
    name: string,
    phone: string,
    email: string,
    district: string,
    kind: string,
    register: string,
    password: string,
    passwordConfirmation: string,
    mark: string,
    description: string,
    photos1: Option<seq<File>>,
    photos2: Option<seq<File>>,
    photos3: Option<seq<File>>,
    confirm: bool)

  /** The state the form mounts with. */
  const InitialForm: FormData :=
    FormData("", "", "", "", "", "0", "", "", "", "", None, None, None, false)

  /** The `name` attribute of each control wired to the change handler. */
  datatype Field =
    | Name | Phone | Email | District | Kind | Password | PasswordConfirmation
    | Mark | Description | Photos1 | Photos2 | Photos3 | Confirm

  /** The dynamically typed value a record property holds. */
  datatype JsValue = JsString(s: string) | JsBool(b: bool) | JsFileList(files: seq<File>) | JsNull

  function SlotValue(slot: Option<seq<File>>): JsValue {
    match slot
    case None => JsNull
    case Some(files) => JsFileList(files)
  }

  /** Reads property `g` of the record, as `formData[g]` does. */
  function Get(f: FormData, g: Field): JsValue {
    match g
    case Name => JsString(f.name)
    case Phone => JsString(f.phone)
    case Email => JsString(f.email)
    case District => JsString(f.district)
    case Kind => JsString(f.kind)
    case Password => JsString(f.password)
    case PasswordConfirmation => JsString(f.passwordConfirmation)
    case Mark => JsString(f.mark)
    case Description => JsString(f.description)
    case Photos1 => SlotValue(f.photos1)
    case Photos2 => SlotValue(f.photos2)
    case Photos3 => SlotValue(f.photos3)
    case Confirm => JsBool(f.confirm)
  }

  /** Two records that agree on every property are the same record. */
  lemma {:induction false} FormDeterminedByFields(f1: FormData, f2: FormData)
    requires forall g :: Get(f1, g) == Get(f2, g)
    requires f1.register == f2.register
    ensures f1 == f2
  {
    assert Get(f1, Name) == Get(f2, Name);
    assert Get(f1, Phone) == Get(f2, Phone);
    assert Get(f1, Email) == Get(f2, Email);
    assert Get(f1, District) == Get(f2, District);
    assert Get(f1, Kind) == Get(f2, Kind);
    assert Get(f1, Password) == Get(f2, Password);
    assert Get(f1, PasswordConfirmation) == Get(f2, PasswordConfirmation);
    assert Get(f1, Mark) == Get(f2, Mark);
    assert Get(f1, Description) == Get(f2, Description);
    assert Get(f1, Photos1) == Get(f2, Photos1);
    assert Get(f1, Photos2) == Get(f2, Photos2);
    assert Get(f1, Photos3) == Get(f2, Photos3);
    assert Get(f1, Confirm) == Get(f2, Confirm);
  }

  /** The `type` of the control that fired, as far as the handler distinguishes it. */
  datatype InputKind = Checkbox | FileInput | OtherInput

  /** The parts of `e.target` the handler reads. */
  datatype InputEvent = InputEvent(name: Field, kind: InputKind, value: string, checked: bool, files: seq<File>)

  /** The value the handler writes: `checked` for a checkbox, `files` for a file input, else `value`. */
  function Written(e: InputEvent): (v: JsValue)
    ensures e.kind == Checkbox ==> v == JsBool(e.checked)
    ensures e.kind == FileInput ==> v == JsFileList(e.files)
    ensures e.kind == OtherInput ==> v == JsString(e.value)
  {
    match e.kind
    case Checkbox => JsBool(e.checked)
    case FileInput => JsFileList(e.files)
    case OtherInput => JsString(e.value)
  }

  /**
   * How the markup binds controls to fields: `confirm` is the only checkbox,
   * the three photo slots are the only file inputs, every other field is a
   * text, tel, email, password or textarea control.
   */
  predicate BoundControl(g: Field, k: InputKind) {
    match g
    case Confirm => k == Checkbox
    case Photos1 | Photos2 | Photos3 => k == FileInput
    case _ => k == OtherInput
  }

  /** Record update of `handleInputChange`: `{...prevData, [name]: written}`. */
  function Update(f: FormData, e: InputEvent): (r: FormData)
    requires BoundControl(e.name, e.kind)
    ensures Get(r, e.name) == Written(e)
    ensures forall g :: g != e.name ==> Get(r, g) == Get(f, g)
    ensures r.register == f.register
  {
    match e.name
    case Name => f.(name := e.value)
    case Phone => f.(phone := e.value)
    case Email => f.(email := e.value)
    case District => f.(district := e.value)
    case Kind => f.(kind := e.value)
    case Password => f.(password := e.value)
    case PasswordConfirmation => f.(passwordConfirmation := e.value)
    case Mark => f.(mark := e.value)
    case Description => f.(description := e.value)
    case Photos1 => f.(photos1 := Some(e.files))
    case Photos2 => f.(photos2 := Some(e.files))
    case Photos3 => f.(photos3 := Some(e.files))
    case Confirm => f.(confirm := e.checked)
  }

  /** A later change to the same control overwrites an earlier one entirely. */
  lemma {:induction false} UpdateLastWriteWins(f: FormData, e1: InputEvent, e2: InputEvent)
    requires BoundControl(e1.name, e1.kind) && BoundControl(e2.name, e2.kind)
    requires e1.name == e2.name
    ensures Update(Update(f, e1), e2) == Update(f, e2)
  {
    FormDeterminedByFields(Update(Update(f, e1), e2), Update(f, e2));
  }

  /** The identity fields of the user record returned by the current-user lookup. */
  datatype UserInfo = UserInfo(name: string, phone: string, email: string)

  /** The pre-fill merge: `{...prevData, name, phone, email}` from the user record. */
  function Prefill(f: FormData, u: UserInfo): (r: FormData)
    ensures Get(r, Name) == JsString(u.name)
    ensures Get(r, Phone) == JsString(u.phone)
    ensures Get(r, Email) == JsString(u.email)
    ensures forall g :: g != Name && g != Phone && g != Email ==> Get(r, g) == Get(f, g)
    ensures r.register == f.register
  {
    f.(name := u.name, phone := u.phone, email := u.email)
  }
}
