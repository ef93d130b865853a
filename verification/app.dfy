/** The page script's state machine: one `stateAtom` holding a snapshot
    object, four watchers registered when the script loads, the input
    handlers that run `processInput`, and the start-up read of a stored
    birth date. DOM work is reduced to what the watchers would do to the
    page: the password box's text, the error texts under the inputs, and a
    log of the other visible effects in the order they happen. */
module App {
  import opened Js
  import opened Results
  import opened Validators
  import opened Atoms
  import opened Subscriptions
  import opened Derivations

  // Snapshot keys, spelled as in the script.
  const DayKey := "day"
  const MonthKey := "month"
  const YearKey := "year"
  const CodeKey := "code"
  const ShowDateModalKey := "showDateModal"
  const ActivateKey := "activateSavePopupButton"
  const LoadedKey := "dateLoadedeFromLocalStorage"
  const ValidationErrorKey := "validationError"

  /** The snapshot `stateAtom` starts with; it is the object with id 0. */
  function InitialSnapshot(): (v: Value)
    ensures v.Obj? && v.id == 0
    ensures v.props.Keys == {DayKey, MonthKey, YearKey, CodeKey, ShowDateModalKey, ActivateKey,
                             LoadedKey, ValidationErrorKey}
    ensures Get(v, DayKey) == Null && Get(v, MonthKey) == Null && Get(v, YearKey) == Null
    ensures Get(v, CodeKey) == Null && Get(v, ValidationErrorKey) == Null
    ensures Get(v, ShowDateModalKey) == Bool(false) && Get(v, ActivateKey) == Bool(false)
    ensures Get(v, LoadedKey) == Bool(false)
  {
    Obj(0, map[DayKey := Null, MonthKey := Null, YearKey := Null, CodeKey := Null,
               ShowDateModalKey := Bool(false), ActivateKey := Bool(false),
               LoadedKey := Bool(false), ValidationErrorKey := Null])
  }

  /** `a` and `b` agree on every key outside `keys`: the same keys are
      present and they hold the same values. */
  ghost predicate SameExcept(a: Value, b: Value, keys: set<string>) {
    forall k :: k !in keys ==> (HasProperty(a, k) <==> HasProperty(b, k)) && Get(a, k) == Get(b, k)
  }

  /** The outcome of `processInput`: the atom after its one `update`, the
      next free object id, and the value assigned to the field's
      `textContent`. This is the value assigned, not the text shown: a
      browser shows an assigned `undefined` as empty text. */
  datatype Processed = Processed(state: Atom<Value>, nextId: nat, errorText: Value)

  /** `processInput({val, field, validator, errorField, state})`. Objects
      created here take the ids `nextId`, `nextId + 1`, ...; the current
      snapshot's id is below `nextId`, so every new snapshot is a different
      object and the update always notifies. */
  function ProcessInput(val: string, field: string, validator: string -> Result,
                        state: Atom<Value>, nextId: nat): (r: Processed)
    requires state.value.Obj? && state.value.id < nextId
    requires field != ValidationErrorKey
    ensures r.state.watchers == state.watchers
    ensures r.state.log == state.log + Notify(state.watchers, r.state.value)
    ensures r.state.value.Obj? && nextId <= r.state.value.id < r.nextId
    ensures IsOk(validator(val)) ==>
              SameExcept(state.value, r.state.value, {field, ValidationErrorKey}) &&
              HasProperty(r.state.value, field) && Get(r.state.value, field) == Str(val) &&
              HasProperty(r.state.value, ValidationErrorKey) &&
              Get(r.state.value, ValidationErrorKey) == Null &&
              r.errorText == Str("")
    ensures !IsOk(validator(val)) ==>
              SameExcept(state.value, r.state.value, {ValidationErrorKey}) &&
              HasProperty(r.state.value, ValidationErrorKey) &&
              var e := Get(r.state.value, ValidationErrorKey);
              e.Obj? && nextId <= e.id < r.nextId &&
              e.props == map["from" := Str(field), "err" := ErrField(validator(val)), "value" := Str(val)] &&
              r.errorText == ErrField(validator(val))
  {
    var validation := validator(val);
    var ov := state.value;
    if IsOk(validation) then
      var nv := Obj(nextId, ov.props[field := Str(val)][ValidationErrorKey := Null]);
      Processed(Update(state, _ => nv), nextId + 1, Str(""))
    else
      var errorObj := Obj(nextId, map["from" := Str(field), "err" := ErrField(validation), "value" := Str(val)]);
      var nv := Obj(nextId + 1, ov.props[ValidationErrorKey := errorObj]);
      Processed(Update(state, _ => nv), nextId + 2, ErrField(validation))
  }

  // ---------------------------------------------------------------------
  // The page

  /** What the watchers do to the page, apart from the password box. */
  datatype Effect =
    | ShowDateModal
    | HideDateModal
    | FocusCodeInput
    | FocusDayInput
    | CopyButtonGreen(green: bool)
    | ActivateSavePopupButton

  datatype Field = DayField | MonthField | YearField | CodeField

  function Key(f: Field): string {
    match f
    case DayField => DayKey
    case MonthField => MonthKey
    case YearField => YearKey
    case CodeField => CodeKey
  }

  /** The validator each input's listener hands to `processInput`. */
  function FieldValidation(f: Field, val: string, toNumber: string -> JsNumber): Result {
    match f
    case DayField => ValidateDay(val, toNumber)
    case MonthField => ValidateMonth(val, toNumber)
    case YearField => ValidateYear(val, toNumber)
    case CodeField => ValidateCode(val, toNumber)
  }

  function ValidatorOf(f: Field, toNumber: string -> JsNumber): string -> Result {
    v => FieldValidation(f, v, toNumber)
  }

  /** The page: the state atom, the id counter, the three subscriptions'
      memories, the password box's text, the value last assigned to each
      field's error `textContent`, and the effects the watchers caused. */
  datatype Page = Page(
    atom: Atom<Value>,
    nextId: nat,
    modalSub: Subscription,
    loadedSub: Subscription,
    errorSub: Subscription,
    output: string,
    errorTexts: map<Field, Value>,
    effects: seq<Effect>)

  // Watchers in the order the script registers them.
  const OutputWatcher: nat := 0
  const ModalWatcher: nat := 1
  const LoadedWatcher: nat := 2
  const ErrorWatcher: nat := 3

  /** The page once the script has loaded: the four watchers are registered
      and nothing has been delivered. */
  function InitialPage(): (p: Page)
    ensures p.atom.watchers == [OutputWatcher, ModalWatcher, LoadedWatcher, ErrorWatcher]
    ensures p.atom.log == [] && p.atom.value == InitialSnapshot()
    ensures p.modalSub == Subscribe(ShowDateModalKey) && p.loadedSub == Subscribe(LoadedKey)
    ensures p.errorSub == Subscribe(ValidationErrorKey)
    ensures PageInv(p)
  {
    var a := AddWatcher(AddWatcher(AddWatcher(AddWatcher(NewAtom(InitialSnapshot()),
               OutputWatcher), ModalWatcher), LoadedWatcher), ErrorWatcher);
    Page(a, 1, Subscribe(ShowDateModalKey), Subscribe(LoadedKey), Subscribe(ValidationErrorKey),
         "", map[], [])
  }

  /** `convertNumTwo` can be applied to the snapshot's day and month. */
  predicate DateText(v: Value) {
    IsTextOrFalsy(Get(v, MonthKey)) && IsTextOrFalsy(Get(v, DayKey))
  }

  /** An object value, if any, was created before id `n` was handed out. */
  predicate Below(v: Value, n: nat) {
    v.Obj? ==> v.id < n
  }

  /** What holds of the page between events. */
  predicate PageInv(p: Page) {
    && p.atom.value.Obj? && p.atom.value.id < p.nextId
    && DateText(p.atom.value)
    && Below(Get(p.atom.value, ValidationErrorKey), p.nextId)
    && p.atom.watchers == [OutputWatcher, ModalWatcher, LoadedWatcher, ErrorWatcher]
    && p.modalSub.field == ShowDateModalKey
    && p.loadedSub.field == LoadedKey
    && p.errorSub.field == ValidationErrorKey
    && Below(p.errorSub.previous, p.nextId)
  }

  /** The output watcher: nothing happens unless day, month and year are
      all truthy; then the save button is wired up if the snapshot says it
      is not yet, and the password box shows the generated password. */
  function OutputWatch(p: Page, s: Value): (r: Page)
    requires DateText(s)
    ensures !(Truthy(Get(s, DayKey)) && Truthy(Get(s, MonthKey)) && Truthy(Get(s, YearKey))) ==> r == p
    ensures Truthy(Get(s, DayKey)) && Truthy(Get(s, MonthKey)) && Truthy(Get(s, YearKey)) ==>
              r.output == GenPass(FormValidDate(s), Get(s, CodeKey)) &&
              r.effects == p.effects + (if Truthy(Get(s, ActivateKey)) then [] else [ActivateSavePopupButton])
    ensures r.atom == p.atom && r.nextId == p.nextId && r.errorTexts == p.errorTexts
    ensures r.modalSub == p.modalSub && r.loadedSub == p.loadedSub && r.errorSub == p.errorSub
  {
    if !Truthy(Get(s, DayKey)) || !Truthy(Get(s, MonthKey)) || !Truthy(Get(s, YearKey)) then p
    else
      var activate := if !Truthy(Get(s, ActivateKey)) then [ActivateSavePopupButton] else [];
      p.(output := GenPass(FormValidDate(s), Get(s, CodeKey)), effects := p.effects + activate)
  }

  /** The callbacks given to `subs`, for the value they are called with:
      a truthy `showDateModal` shows the popup, a falsy one hides it. */
  function ModalEffect(v: Value): (e: Effect)
    ensures e == ShowDateModal || e == HideDateModal
    ensures e == ShowDateModal <==> Truthy(v)
  {
    if Truthy(v) then ShowDateModal else HideDateModal
  }

  /** A truthy loaded flag focuses the code input, a falsy one the day. */
  function LoadedEffect(v: Value): (e: Effect)
    ensures e == FocusCodeInput || e == FocusDayInput
    ensures e == FocusCodeInput <==> Truthy(v)
  {
    if Truthy(v) then FocusCodeInput else FocusDayInput
  }

  /** `v && v.from === "code"` takes the green class away; any other value
      of `validationError`, `null` included, puts it on. */
  function ErrorEffect(v: Value): (e: Effect)
    ensures e.CopyButtonGreen?
    ensures !e.green <==> v.Obj? && Get(v, "from") == Str(CodeKey)
  {
    CopyButtonGreen(!(Truthy(v) && Get(v, "from") == Str("code")))
  }

  function Fired(st: StepResult, effect: Value -> Effect): seq<Effect> {
    if st.fired.Some? then [effect(st.fired.value)] else []
  }

  /** One call `watcher(value)`, dispatched on the watcher's identity. */
  function Dispatch(p: Page, d: Delivery<Value>): (r: Page)
    requires DateText(d.value)
    ensures r.atom == p.atom && r.nextId == p.nextId && r.errorTexts == p.errorTexts
    ensures r.modalSub.field == p.modalSub.field && r.loadedSub.field == p.loadedSub.field
    ensures r.errorSub.field == p.errorSub.field
    ensures r.errorSub == p.errorSub || r.errorSub.previous == Get(d.value, p.errorSub.field)
    ensures |p.effects| <= |r.effects| && r.effects[..|p.effects|] == p.effects
    ensures d.watcher != ModalWatcher ==> r.modalSub == p.modalSub
    ensures d.watcher != LoadedWatcher ==> r.loadedSub == p.loadedSub
    ensures d.watcher != ErrorWatcher ==> r.errorSub == p.errorSub
    ensures d.watcher != OutputWatcher ==> r.output == p.output
  {
    if d.watcher == OutputWatcher then OutputWatch(p, d.value)
    else if d.watcher == ModalWatcher then
      var st := SubsStep(p.modalSub, d.value);
      p.(modalSub := st.next, effects := p.effects + Fired(st, ModalEffect))
    else if d.watcher == LoadedWatcher then
      var st := SubsStep(p.loadedSub, d.value);
      p.(loadedSub := st.next, effects := p.effects + Fired(st, LoadedEffect))
    else if d.watcher == ErrorWatcher then
      var st := SubsStep(p.errorSub, d.value);
      p.(errorSub := st.next, effects := p.effects + Fired(st, ErrorEffect))
    else p
  }

  /** `watchers.forEach(...)`: the deliveries of one round, in order. */
  function Deliver(p: Page, ds: seq<Delivery<Value>>): (r: Page)
    requires forall i :: 0 <= i < |ds| ==> DateText(ds[i].value)
    ensures r.atom == p.atom && r.nextId == p.nextId && r.errorTexts == p.errorTexts
    ensures r.modalSub.field == p.modalSub.field && r.loadedSub.field == p.loadedSub.field
    ensures r.errorSub.field == p.errorSub.field
    ensures r.errorSub == p.errorSub ||
            exists i :: 0 <= i < |ds| && r.errorSub.previous == Get(ds[i].value, p.errorSub.field)
    ensures |p.effects| <= |r.effects| && r.effects[..|p.effects|] == p.effects
    decreases |ds|
  {
    if |ds| == 0 then p
    else
      var q := Dispatch(p, ds[0]);
      var r := Deliver(q, ds[1..]);
      assert r.errorSub == q.errorSub ==> r.errorSub == p.errorSub || r.errorSub.previous == Get(ds[0].value, p.errorSub.field);
      assert forall i :: 0 <= i < |ds| - 1 ==> ds[1..][i] == ds[i + 1];
      r
  }

  /** Runs the round an atom change produced: the deliveries appended to the
      log since `p.atom`. */
  function Commit(p: Page, a: Atom<Value>, nextId: nat): (r: Page)
    requires a.log == p.atom.log + Notify(p.atom.watchers, a.value)
    requires DateText(a.value)
    ensures r.atom == a && r.nextId == nextId && r.errorTexts == p.errorTexts
    ensures r.modalSub.field == p.modalSub.field && r.loadedSub.field == p.loadedSub.field
    ensures r.errorSub.field == p.errorSub.field
    ensures r.errorSub == p.errorSub || r.errorSub.previous == Get(a.value, p.errorSub.field)
  {
    var ds := a.log[|p.atom.log|..];
    assert ds == Notify(p.atom.watchers, a.value);
    Deliver(p.(atom := a, nextId := nextId), ds)
  }

  /** `stateAtom.set(v)` / `stateAtom.update(_ => v)` for a snapshot `v`
      created with id `p.nextId`. */
  function SetState(p: Page, v: Value): (r: Page)
    requires PageInv(p) && v.Obj? && v.id == p.nextId && DateText(v)
    requires Below(Get(v, ValidationErrorKey), p.nextId + 1)
    ensures PageInv(r) && r.atom.value == v && r.nextId == p.nextId + 1
    ensures r.errorTexts == p.errorTexts
  {
    var a := Set(p.atom, v);
    Commit(p, a, p.nextId + 1)
  }

  /** `e.target.value ? e.target.value : ""`: a falsy input value becomes
      the empty string, a string stays as it is. */
  function InputValue(raw: Value): (val: string)
    requires IsTextOrFalsy(raw)
    ensures val == "" <==> !Truthy(raw)
    ensures raw.Str? ==> val == raw.s
  {
    if Truthy(raw) then raw.s else ""
  }

  /** The `input` listener of one field: `processInput` with the field's
      validator, then the round of watcher calls its update caused. The
      error text is written before the round on success and after it on
      failure; the watchers never read it, so the order is not visible. */
  function HandleInput(p: Page, f: Field, raw: Value, toNumber: string -> JsNumber): (r: Page)
    requires PageInv(p) && IsTextOrFalsy(raw)
    ensures PageInv(r)
    ensures f in r.errorTexts && r.errorTexts == p.errorTexts[f := r.errorTexts[f]]
    ensures var validation := ValidatorOf(f, toNumber)(InputValue(raw));
      if IsOk(validation) then
        r.errorTexts[f] == Str("") && Get(r.atom.value, Key(f)) == Str(InputValue(raw)) &&
        Get(r.atom.value, ValidationErrorKey) == Null &&
        SameExcept(p.atom.value, r.atom.value, {Key(f), ValidationErrorKey})
      else
        r.errorTexts[f] == ErrField(validation) && Get(r.atom.value, Key(f)) == Get(p.atom.value, Key(f)) &&
        Get(Get(r.atom.value, ValidationErrorKey), "from") == Str(Key(f)) &&
        SameExcept(p.atom.value, r.atom.value, {ValidationErrorKey})
  {
    var val := InputValue(raw);
    var pr := ProcessInput(val, Key(f), ValidatorOf(f, toNumber), p.atom, p.nextId);
    ProcessInputKeepsDateText(val, Key(f), ValidatorOf(f, toNumber), p.atom, p.nextId);
    var r := Commit(p.(errorTexts := p.errorTexts[f := pr.errorText]), pr.state, pr.nextId);
    InputFrame(p, f, val, ValidatorOf(f, toNumber)(val), pr, r);
    r
  }

  /** The frame of an input event, stated over the outcome `pr` of
      `processInput` and the page `r` after its round. */
  lemma InputFrame(p: Page, f: Field, val: string, validation: Result, pr: Processed, r: Page)
    requires PageInv(p)
    requires pr.state.watchers == p.atom.watchers && DateText(pr.state.value)
    requires pr.state.value.Obj? && p.nextId <= pr.state.value.id < pr.nextId
    requires IsOk(validation) ==>
               SameExcept(p.atom.value, pr.state.value, {Key(f), ValidationErrorKey}) &&
               Get(pr.state.value, Key(f)) == Str(val) &&
               Get(pr.state.value, ValidationErrorKey) == Null && pr.errorText == Str("")
    requires !IsOk(validation) ==>
               SameExcept(p.atom.value, pr.state.value, {ValidationErrorKey}) &&
               Get(pr.state.value, ValidationErrorKey).Obj? &&
               p.nextId <= Get(pr.state.value, ValidationErrorKey).id < pr.nextId &&
               Get(Get(pr.state.value, ValidationErrorKey), "from") == Str(Key(f)) &&
               pr.errorText == ErrField(validation)
    requires r.atom == pr.state && r.nextId == pr.nextId && r.errorTexts == p.errorTexts[f := pr.errorText]
    requires r.modalSub.field == p.modalSub.field && r.loadedSub.field == p.loadedSub.field
    requires r.errorSub.field == p.errorSub.field
    requires r.errorSub == p.errorSub || r.errorSub.previous == Get(pr.state.value, p.errorSub.field)
    ensures PageInv(r)
    ensures f in r.errorTexts && r.errorTexts == p.errorTexts[f := r.errorTexts[f]]
    ensures if IsOk(validation) then
        r.errorTexts[f] == Str("") && Get(r.atom.value, Key(f)) == Str(val) &&
        Get(r.atom.value, ValidationErrorKey) == Null &&
        SameExcept(p.atom.value, r.atom.value, {Key(f), ValidationErrorKey})
      else
        r.errorTexts[f] == ErrField(validation) && Get(r.atom.value, Key(f)) == Get(p.atom.value, Key(f)) &&
        Get(Get(r.atom.value, ValidationErrorKey), "from") == Str(Key(f)) &&
        SameExcept(p.atom.value, r.atom.value, {ValidationErrorKey})
  {
    if !IsOk(validation) {
      assert Key(f) !in {ValidationErrorKey} by { KeysDistinct(); }
    }
  }

  /** `processInput` keeps the snapshot's day and month text or falsy. */
  lemma ProcessInputKeepsDateText(val: string, field: string, validator: string -> Result,
                                  state: Atom<Value>, nextId: nat)
    requires state.value.Obj? && state.value.id < nextId && field != ValidationErrorKey
    requires DateText(state.value)
    ensures DateText(ProcessInput(val, field, validator, state, nextId).state.value)
  {
    if IsOk(validator(val)) {
      AcceptedKeepsDateText(val, field, validator, state, nextId);
    } else {
      RejectedKeepsDateText(val, field, validator, state, nextId);
    }
  }

  /** An accepted value is text, so the snapshot's day and month stay text
      or falsy. */
  lemma AcceptedKeepsDateText(val: string, field: string, validator: string -> Result,
                              state: Atom<Value>, nextId: nat)
    requires state.value.Obj? && state.value.id < nextId && field != ValidationErrorKey
    requires DateText(state.value) && IsOk(validator(val))
    ensures DateText(ProcessInput(val, field, validator, state, nextId).state.value)
  {
    var nv := Obj(nextId, state.value.props[field := Str(val)][ValidationErrorKey := Null]);
    assert ProcessInput(val, field, validator, state, nextId).state.value == nv;
  }

  /** A rejection leaves the day and the month as they were. */
  lemma RejectedKeepsDateText(val: string, field: string, validator: string -> Result,
                              state: Atom<Value>, nextId: nat)
    requires state.value.Obj? && state.value.id < nextId && field != ValidationErrorKey
    requires DateText(state.value) && !IsOk(validator(val))
    ensures DateText(ProcessInput(val, field, validator, state, nextId).state.value)
  {
    var v := ProcessInput(val, field, validator, state, nextId).state.value;
    assert MonthKey !in {ValidationErrorKey} && DayKey !in {ValidationErrorKey};
  }

  /** What `localStorage` holds under "birthDate", as parsed. */
  datatype StoredDate = StoredDate(day: string, month: string, year: string)

  /** `checkLocalStorage()`: with a stored date, a `set` of a three-key
      snapshot (which drops every other key) and an `update` marking the
      date as loaded; without one, an `update` that marks it as not loaded. */
  function CheckLocalStorage(p: Page, stored: Option<StoredDate>): (r: Page)
    requires PageInv(p)
    ensures PageInv(r)
    ensures stored.Some? ==>
              r.atom.value.props.Keys == {DayKey, MonthKey, YearKey, ActivateKey, LoadedKey} &&
              Get(r.atom.value, DayKey) == Str(stored.value.day) &&
              Get(r.atom.value, MonthKey) == Str(stored.value.month) &&
              Get(r.atom.value, YearKey) == Str(stored.value.year) &&
              Get(r.atom.value, ActivateKey) == Bool(true) &&
              Get(r.atom.value, LoadedKey) == Bool(true)
    ensures stored.None? ==>
              SameExcept(p.atom.value, r.atom.value, {LoadedKey}) &&
              Get(r.atom.value, LoadedKey) == Bool(false) && HasProperty(r.atom.value, LoadedKey)
  {
    match stored
    case Some(d) =>
      var v1 := Obj(p.nextId, map[DayKey := Str(d.day), MonthKey := Str(d.month), YearKey := Str(d.year)]);
      var p1 := SetState(p, v1);
      var v2 := Obj(p1.nextId, p1.atom.value.props[ActivateKey := Bool(true)][LoadedKey := Bool(true)]);
      SetState(p1, v2)
    case None =>
      var v := Obj(p.nextId, p.atom.value.props[LoadedKey := Bool(false)]);
      SetState(p, v)
  }

  // ---------------------------------------------------------------------
  // Lemmas

  /** The snapshot keys are pairwise different strings. */
  lemma KeysDistinct()
    ensures DayKey != MonthKey && DayKey != YearKey && DayKey != CodeKey && DayKey != ShowDateModalKey
    ensures DayKey != ActivateKey && DayKey != LoadedKey && DayKey != ValidationErrorKey
    ensures MonthKey != YearKey && MonthKey != CodeKey && MonthKey != ShowDateModalKey
    ensures MonthKey != ActivateKey && MonthKey != LoadedKey && MonthKey != ValidationErrorKey
    ensures YearKey != CodeKey && YearKey != ShowDateModalKey && YearKey != ActivateKey
    ensures YearKey != LoadedKey && YearKey != ValidationErrorKey
    ensures CodeKey != ShowDateModalKey && CodeKey != ActivateKey && CodeKey != LoadedKey
    ensures CodeKey != ValidationErrorKey
    ensures ShowDateModalKey != ActivateKey && ShowDateModalKey != LoadedKey && ShowDateModalKey != ValidationErrorKey
    ensures ActivateKey != LoadedKey && ActivateKey != ValidationErrorKey
    ensures LoadedKey != ValidationErrorKey
  {
    assert DayKey[0] == 'd' && MonthKey[0] == 'm' && YearKey[0] == 'y' && CodeKey[0] == 'c';
    assert ShowDateModalKey[0] == 's' && ActivateKey[0] == 'a' && ValidationErrorKey[0] == 'v';
    assert LoadedKey[0] == 'd' && |LoadedKey| != |DayKey|;
  }

  /** A round over the page's four watchers calls them in registration
      order. */
  lemma DeliverRound(p: Page, v: Value)
    requires DateText(v)
    ensures Deliver(p, Notify([OutputWatcher, ModalWatcher, LoadedWatcher, ErrorWatcher], v)) ==
            Dispatch(Dispatch(Dispatch(Dispatch(p, Delivery(OutputWatcher, v)), Delivery(ModalWatcher, v)),
                              Delivery(LoadedWatcher, v)), Delivery(ErrorWatcher, v))
  {
    var d0, d1, d2, d3 := Delivery(OutputWatcher, v), Delivery(ModalWatcher, v), Delivery(LoadedWatcher, v), Delivery(ErrorWatcher, v);
    var ds := Notify([OutputWatcher, ModalWatcher, LoadedWatcher, ErrorWatcher], v);
    assert ds == [d0, d1, d2, d3];
    var q1 := Dispatch(p, d0);
    var q2 := Dispatch(q1, d1);
    var q3 := Dispatch(q2, d2);
    var q4 := Dispatch(q3, d3);
    assert ds[1..] == [d1, d2, d3];
    assert Deliver(p, ds) == Deliver(q1, [d1, d2, d3]);
    assert [d1, d2, d3][1..] == [d2, d3];
    assert Deliver(q1, [d1, d2, d3]) == Deliver(q2, [d2, d3]);
    assert [d2, d3][1..] == [d3];
    assert Deliver(q2, [d2, d3]) == Deliver(q3, [d3]);
    assert [d3][1..] == [];
    assert Deliver(q3, [d3]) == Deliver(q4, []);
  }

  /** Every field's validator passes "" through as `ok("")`. */
  lemma EmptyInputValidation(f: Field, toNumber: string -> JsNumber)
    ensures ValidatorOf(f, toNumber)("") == Ok("")
  {
    EmptyInputPassesThrough(toNumber);
  }

  /** An empty input takes the failure branch of `processInput`: the field
      keeps its value and the recorded error has an `undefined` message,
      which is also what the error text is set to. */
  lemma EmptyInputIsRecordedAsError(f: Field, state: Atom<Value>, nextId: nat, toNumber: string -> JsNumber)
    requires state.value.Obj? && state.value.id < nextId
    ensures var r := ProcessInput("", Key(f), ValidatorOf(f, toNumber), state, nextId);
      r.errorText == Undefined &&
      Get(r.state.value, Key(f)) == Get(state.value, Key(f)) &&
      Get(Get(r.state.value, ValidationErrorKey), "err") == Undefined &&
      Get(Get(r.state.value, ValidationErrorKey), "value") == Str("")
  {
    assert Key(f) != ValidationErrorKey by { KeysDistinct(); }
    EmptyInputValidation(f, toNumber);
    var r := ProcessInput("", Key(f), ValidatorOf(f, toNumber), state, nextId);
    assert SameExcept(state.value, r.state.value, {ValidationErrorKey});
    assert Get(r.state.value, Key(f)) == Get(state.value, Key(f));
  }

  /** A round on a snapshot with no day, the modal closed, the date not
      loaded and no validation error, seen for the first time by all three
      subscriptions. */
  lemma FirstRoundNotLoaded(p: Page, v: Value)
    requires p.modalSub == Subscribe(ShowDateModalKey) && p.loadedSub == Subscribe(LoadedKey)
    requires p.errorSub == Subscribe(ValidationErrorKey)
    requires Get(v, DayKey) == Null && Get(v, MonthKey) == Null
    requires HasProperty(v, ShowDateModalKey) && Get(v, ShowDateModalKey) == Bool(false)
    requires HasProperty(v, LoadedKey) && Get(v, LoadedKey) == Bool(false)
    requires HasProperty(v, ValidationErrorKey) && Get(v, ValidationErrorKey) == Null
    ensures var r := Deliver(p, Notify([OutputWatcher, ModalWatcher, LoadedWatcher, ErrorWatcher], v));
      r.effects == p.effects + [HideDateModal, FocusDayInput, CopyButtonGreen(true)] && r.output == p.output
  {
    DeliverRound(p, v);
    var q1 := Dispatch(p, Delivery(OutputWatcher, v));
    assert q1 == p;
    var q2 := Dispatch(q1, Delivery(ModalWatcher, v));
    assert q2.effects == p.effects + [HideDateModal];
    var q3 := Dispatch(q2, Delivery(LoadedWatcher, v));
    assert q3.effects == p.effects + [HideDateModal, FocusDayInput];
    var q4 := Dispatch(q3, Delivery(ErrorWatcher, v));
    assert q4.effects == p.effects + [HideDateModal, FocusDayInput, CopyButtonGreen(true)];
  }

  /** Start-up without a stored date: the one update reaches every watcher,
      the modal is hidden, the day input is focused and the copy button is
      green; no password is shown. */
  lemma StartupWithoutStoredDate()
    ensures CheckLocalStorage(InitialPage(), None).effects == [HideDateModal, FocusDayInput, CopyButtonGreen(true)]
    ensures CheckLocalStorage(InitialPage(), None).output == ""
  {
    var p := InitialPage();
    var v := Obj(p.nextId, p.atom.value.props[LoadedKey := Bool(false)]);
    assert Get(v, DayKey) == Null && Get(v, MonthKey) == Null && Get(v, ShowDateModalKey) == Bool(false) &&
           Get(v, LoadedKey) == Bool(false) && Get(v, ValidationErrorKey) == Null by {
      KeysDistinct();
    }
    assert CheckLocalStorage(p, None) == SetState(p, v);
    SetStateIsRound(p, v);
    FirstRoundNotLoaded(p.(atom := Set(p.atom, v), nextId := p.nextId + 1), v);
  }

  /** The snapshot `set` from a stored date has only its three keys. */
  function StoredSnapshot(d: StoredDate, id: nat): Value {
    Obj(id, map[DayKey := Str(d.day), MonthKey := Str(d.month), YearKey := Str(d.year)])
  }

  predicate CompleteDate(d: StoredDate) {
    d.day != "" && d.month != "" && d.year != ""
  }

  /** `SetState` is one round over the new snapshot. */
  lemma SetStateIsRound(p: Page, v: Value)
    requires PageInv(p) && v.Obj? && v.id == p.nextId && DateText(v)
    requires Below(Get(v, ValidationErrorKey), p.nextId + 1)
    ensures SetState(p, v) ==
            Deliver(p.(atom := Set(p.atom, v), nextId := p.nextId + 1),
                    Notify([OutputWatcher, ModalWatcher, LoadedWatcher, ErrorWatcher], v))
  {
    var a := Set(p.atom, v);
    assert a.log[|p.atom.log|..] == Notify(p.atom.watchers, v);
  }

  /** A round on a snapshot without `showDateModal` and `validationError`
      is the output watcher followed by the loaded-flag subscription. */
  lemma QuietRound(p: Page, v: Value)
    requires DateText(v) && p.modalSub.field == ShowDateModalKey && p.errorSub.field == ValidationErrorKey
    requires !HasProperty(v, ShowDateModalKey) && !HasProperty(v, ValidationErrorKey)
    ensures Deliver(p, Notify([OutputWatcher, ModalWatcher, LoadedWatcher, ErrorWatcher], v)) ==
            Dispatch(OutputWatch(p, v), Delivery(LoadedWatcher, v))
  {
    DeliverRound(p, v);
    var q1 := Dispatch(p, Delivery(OutputWatcher, v));
    assert Dispatch(q1, Delivery(ModalWatcher, v)) == q1 by {
      assert q1.effects + [] == q1.effects;
    }
    var q3 := Dispatch(q1, Delivery(LoadedWatcher, v));
    assert Dispatch(q3, Delivery(ErrorWatcher, v)) == q3 by {
      assert q3.effects + [] == q3.effects;
    }
  }

  /** With no code in the snapshot the output watcher shows the empty
      password of a complete date. */
  lemma OutputWithoutCode(p: Page, v: Value)
    requires DateText(v) && !Get(v, CodeKey).Str?
    ensures OutputWatch(p, v).output == if DateComplete(v) then "" else p.output
  {
  }

  /** A snapshot the subscriptions cannot see, with the save button not
      yet marked and no code: only the output watcher acts. */
  lemma UnmarkedRound(p: Page, v: Value)
    requires PageInv(p) && v.Obj? && v.id == p.nextId && DateText(v)
    requires !HasProperty(v, ShowDateModalKey) && !HasProperty(v, LoadedKey) && !HasProperty(v, ValidationErrorKey)
    requires !Truthy(Get(v, ActivateKey)) && !Get(v, CodeKey).Str?
    ensures var r := SetState(p, v);
      r.effects == p.effects + (if DateComplete(v) then [ActivateSavePopupButton] else []) &&
      r.modalSub == p.modalSub && r.loadedSub == p.loadedSub && r.errorSub == p.errorSub &&
      r.output == (if DateComplete(v) then "" else p.output)
  {
    var q0 := p.(atom := Set(p.atom, v), nextId := p.nextId + 1);
    SetStateIsRound(p, v);
    QuietRound(q0, v);
    var q1 := OutputWatch(q0, v);
    OutputWithoutCode(q0, v);
    assert Dispatch(q1, Delivery(LoadedWatcher, v)) == q1 by {
      assert q1.effects + [] == q1.effects;
    }
  }

  /** A snapshot whose only subscribed field is a fresh, true loaded flag,
      with the save button marked and no code: the code input is focused. */
  lemma LoadedRound(p: Page, v: Value)
    requires PageInv(p) && v.Obj? && v.id == p.nextId && DateText(v)
    requires Below(Get(v, ValidationErrorKey), p.nextId + 1)
    requires !HasProperty(v, ShowDateModalKey) && !HasProperty(v, ValidationErrorKey)
    requires HasProperty(v, LoadedKey) && Get(v, LoadedKey) == Bool(true) && p.loadedSub.previous == Undefined
    requires Truthy(Get(v, ActivateKey)) && !Get(v, CodeKey).Str?
    ensures var r := SetState(p, v);
      r.effects == p.effects + [FocusCodeInput] &&
      r.output == (if DateComplete(v) then "" else p.output)
  {
    var q0 := p.(atom := Set(p.atom, v), nextId := p.nextId + 1);
    SetStateIsRound(p, v);
    QuietRound(q0, v);
    var q1 := OutputWatch(q0, v);
    OutputWithoutCode(q0, v);
    assert q1.effects == p.effects;
    var st := SubsStep(q1.loadedSub, v);
    assert st.fired == Some(Bool(true));
    assert Dispatch(q1, Delivery(LoadedWatcher, v)) == q1.(loadedSub := st.next, effects := q1.effects + [FocusCodeInput]);
  }

  /** First round of a stored-date start-up: the subscriptions see none of
      their fields; the output watcher runs on a complete date and, as the
      snapshot has no `activateSavePopupButton`, wires up the save button. */
  lemma StoredDateFirstRound(p: Page, d: StoredDate)
    requires PageInv(p)
    ensures var r := SetState(p, StoredSnapshot(d, p.nextId));
      r.effects == p.effects + (if CompleteDate(d) then [ActivateSavePopupButton] else []) &&
      r.modalSub == p.modalSub && r.loadedSub == p.loadedSub && r.errorSub == p.errorSub &&
      r.output == (if CompleteDate(d) then "" else p.output)
  {
    var v := StoredSnapshot(d, p.nextId);
    assert !HasProperty(v, ShowDateModalKey) && !HasProperty(v, LoadedKey) && !HasProperty(v, ValidationErrorKey) &&
           Get(v, ActivateKey) == Undefined && Get(v, CodeKey) == Undefined &&
           Get(v, DayKey) == Str(d.day) && Get(v, MonthKey) == Str(d.month) && Get(v, YearKey) == Str(d.year) by {
      KeysDistinct();
    }
    UnmarkedRound(p, v);
  }

  /** Second round: only the loaded flag is seen, and it focuses the code
      input; the output watcher finds the save button already marked. */
  lemma StoredDateSecondRound(p: Page, d: StoredDate)
    requires PageInv(p) && p.atom.value == StoredSnapshot(d, p.nextId - 1)
    requires p.loadedSub.previous == Undefined
    ensures var v := Obj(p.nextId, p.atom.value.props[ActivateKey := Bool(true)][LoadedKey := Bool(true)]);
      var r := SetState(p, v);
      r.effects == p.effects + [FocusCodeInput] &&
      r.output == (if CompleteDate(d) then "" else p.output)
  {
    var v := Obj(p.nextId, p.atom.value.props[ActivateKey := Bool(true)][LoadedKey := Bool(true)]);
    assert !HasProperty(v, ShowDateModalKey) && !HasProperty(v, ValidationErrorKey) &&
           HasProperty(v, LoadedKey) && Get(v, LoadedKey) == Bool(true) &&
           Get(v, ActivateKey) == Bool(true) && Get(v, CodeKey) == Undefined &&
           Get(v, DayKey) == Str(d.day) && Get(v, MonthKey) == Str(d.month) && Get(v, YearKey) == Str(d.year) by {
      KeysDistinct();
    }
    LoadedRound(p, v);
  }

  /** Start-up with a stored date: the `set` leaves only day, month and
      year, so the modal is never hidden and the copy button never
      coloured; the code input is focused, not the day input. A complete
      date also wires up the save button, once, and shows the empty
      password of a missing code. */
  lemma StartupWithStoredDate(d: StoredDate)
    ensures var r := CheckLocalStorage(InitialPage(), Some(d));
      r.effects == (if CompleteDate(d) then [ActivateSavePopupButton] else []) + [FocusCodeInput] &&
      r.output == ""
  {
    var p := InitialPage();
    var v := StoredSnapshot(d, p.nextId);
    StoredDateFirstRound(p, d);
    var p1 := SetState(p, v);
    assert PageInv(p1) && p1.atom.value == StoredSnapshot(d, p1.nextId - 1) && p1.loadedSub.previous == Undefined;
    StoredDateSecondRound(p1, d);
  }

  /** Day, month and year all truthy: the condition of the output watcher. */
  predicate DateComplete(v: Value) {
    Truthy(Get(v, DayKey)) && Truthy(Get(v, MonthKey)) && Truthy(Get(v, YearKey))
  }

  /** An input event is `processInput` followed by the round of its one
      update. */
  lemma HandleInputIsRound(p: Page, f: Field, raw: Value, toNumber: string -> JsNumber)
    requires PageInv(p) && IsTextOrFalsy(raw)
    ensures var pr := ProcessInput(InputValue(raw), Key(f), ValidatorOf(f, toNumber), p.atom, p.nextId);
      pr.state.log == p.atom.log + Notify(p.atom.watchers, pr.state.value) &&
      HandleInput(p, f, raw, toNumber) ==
        Deliver(p.(errorTexts := p.errorTexts[f := pr.errorText], atom := pr.state, nextId := pr.nextId),
                Notify([OutputWatcher, ModalWatcher, LoadedWatcher, ErrorWatcher], pr.state.value))
  {
    var pr := ProcessInput(InputValue(raw), Key(f), ValidatorOf(f, toNumber), p.atom, p.nextId);
    assert pr.state.log[|p.atom.log|..] == Notify(p.atom.watchers, pr.state.value);
  }

  /** After a round the password box shows the password of the new
      snapshot when its date is complete, and is left alone otherwise. */
  lemma RoundOutput(p: Page, v: Value)
    requires DateText(v)
    ensures var r := Deliver(p, Notify([OutputWatcher, ModalWatcher, LoadedWatcher, ErrorWatcher], v));
      r.output == if DateComplete(v) then GenPass(FormValidDate(v), Get(v, CodeKey)) else p.output
  {
    DeliverRound(p, v);
  }

  /** The same for an input event. */
  lemma HandleInputOutput(p: Page, f: Field, raw: Value, toNumber: string -> JsNumber)
    requires PageInv(p) && IsTextOrFalsy(raw)
    ensures var r := HandleInput(p, f, raw, toNumber);
      r.output == if DateComplete(r.atom.value) then GenPass(FormValidDate(r.atom.value), Get(r.atom.value, CodeKey))
                  else p.output
  {
    var val := InputValue(raw);
    var pr := ProcessInput(val, Key(f), ValidatorOf(f, toNumber), p.atom, p.nextId);
    var q0 := p.(errorTexts := p.errorTexts[f := pr.errorText], atom := pr.state, nextId := pr.nextId);
    HandleInputIsRound(p, f, raw, toNumber);
    RoundOutput(q0, pr.state.value);
  }

  /** A round whose `validationError` differs from the remembered one ends
      with the copy-button effect for it. */
  lemma RoundEndsWithErrorEffect(p: Page, v: Value)
    requires DateText(v) && p.errorSub.field == ValidationErrorKey
    requires HasProperty(v, ValidationErrorKey) && Get(v, ValidationErrorKey) != p.errorSub.previous
    ensures var r := Deliver(p, Notify([OutputWatcher, ModalWatcher, LoadedWatcher, ErrorWatcher], v));
      |r.effects| > 0 && r.effects[|r.effects| - 1] == ErrorEffect(Get(v, ValidationErrorKey))
  {
    DeliverRound(p, v);
    var q3 := Dispatch(Dispatch(Dispatch(p, Delivery(OutputWatcher, v)), Delivery(ModalWatcher, v)), Delivery(LoadedWatcher, v));
    assert q3.errorSub == p.errorSub;
  }

  /** The error object a rejected input records is new and names the
      field. */
  lemma RejectedProcessInput(val: string, field: string, validator: string -> Result,
                             state: Atom<Value>, nextId: nat)
    requires state.value.Obj? && state.value.id < nextId && field != ValidationErrorKey
    requires !IsOk(validator(val))
    ensures var v := ProcessInput(val, field, validator, state, nextId).state.value;
      var e := Get(v, ValidationErrorKey);
      HasProperty(v, ValidationErrorKey) && e.Obj? && e.id >= nextId && Get(e, "from") == Str(field)
  {
  }

  /** A rejected input always makes the `validationError` subscription
      fire, since the error object is new: the round ends by taking the
      copy button's green away exactly when the rejected field is the code. */
  lemma RejectedInputSetsCopyButton(p: Page, f: Field, raw: Value, toNumber: string -> JsNumber)
    requires PageInv(p) && IsTextOrFalsy(raw)
    requires !IsOk(ValidatorOf(f, toNumber)(InputValue(raw)))
    ensures var r := HandleInput(p, f, raw, toNumber);
      |r.effects| > 0 && r.effects[|r.effects| - 1] == CopyButtonGreen(f != CodeField)
  {
    var pr := ProcessInput(InputValue(raw), Key(f), ValidatorOf(f, toNumber), p.atom, p.nextId);
    var q0 := p.(errorTexts := p.errorTexts[f := pr.errorText], atom := pr.state, nextId := pr.nextId);
    HandleInputIsRound(p, f, raw, toNumber);
    RejectedRoundFacts(p, f, raw, toNumber);
    ErrorRoundCopyEffect(q0, pr.state.value, f);
  }

  /** What the round after a rejected input sees: a date of text and a new
      error object that names the field. */
  lemma RejectedRoundFacts(p: Page, f: Field, raw: Value, toNumber: string -> JsNumber)
    requires PageInv(p) && IsTextOrFalsy(raw)
    requires !IsOk(ValidatorOf(f, toNumber)(InputValue(raw)))
    ensures var v := ProcessInput(InputValue(raw), Key(f), ValidatorOf(f, toNumber), p.atom, p.nextId).state.value;
      var e := Get(v, ValidationErrorKey);
      DateText(v) && p.errorSub.field == ValidationErrorKey && HasProperty(v, ValidationErrorKey) &&
      e != p.errorSub.previous && e.Obj? && Get(e, "from") == Str(Key(f))
  {
    RejectedProcessInput(InputValue(raw), Key(f), ValidatorOf(f, toNumber), p.atom, p.nextId);
    RejectedKeepsDateText(InputValue(raw), Key(f), ValidatorOf(f, toNumber), p.atom, p.nextId);
    var e := Get(ProcessInput(InputValue(raw), Key(f), ValidatorOf(f, toNumber), p.atom, p.nextId).state.value, ValidationErrorKey);
    assert e != p.errorSub.previous by {
      assert e.Obj? && e.id >= p.nextId && Below(p.errorSub.previous, p.nextId);
    }
  }

  /** A round carrying a new error object from field `f` ends with the
      copy-button effect for `f`. */
  lemma ErrorRoundCopyEffect(p: Page, v: Value, f: Field)
    requires DateText(v) && p.errorSub.field == ValidationErrorKey
    requires HasProperty(v, ValidationErrorKey) && Get(v, ValidationErrorKey) != p.errorSub.previous
    requires Get(v, ValidationErrorKey).Obj? && Get(Get(v, ValidationErrorKey), "from") == Str(Key(f))
    ensures var r := Deliver(p, Notify([OutputWatcher, ModalWatcher, LoadedWatcher, ErrorWatcher], v));
      |r.effects| > 0 && r.effects[|r.effects| - 1] == CopyButtonGreen(f != CodeField)
  {
    RoundEndsWithErrorEffect(p, v);
    CopyEffectOfError(f, Get(v, ValidationErrorKey));
  }

  lemma CopyEffectOfError(f: Field, e: Value)
    requires e.Obj? && Get(e, "from") == Str(Key(f))
    ensures ErrorEffect(e) == CopyButtonGreen(f != CodeField)
  {
    KeysDistinct();
  }

  // ---------------------------------------------------------------------
  // The worked example: born 3 May 1990

  lemma ExampleLiterals()
    ensures IsIntegerLiteral("3") && IntegerLiteralValue("3") == 3
    ensures IsIntegerLiteral("5") && IntegerLiteralValue("5") == 5
    ensures IsIntegerLiteral("1990") && IntegerLiteralValue("1990") == 1990
  {
    assert UnsignedPart("3") == "3" && UnsignedPart("5") == "5" && UnsignedPart("1990") == "1990";
    assert "3"[..0] == "" && "5"[..0] == "";
    assert "1990"[..3] == "199" && "199"[..2] == "19" && "19"[..1] == "1" && "1"[..0] == "";
  }

  lemma ExampleDateValidations(toNumber: string -> JsNumber)
    requires CoercesIntegers(toNumber)
    ensures ValidatorOf(DayField, toNumber)("3") == Ok("3")
    ensures ValidatorOf(MonthField, toNumber)("5") == Ok("5")
    ensures ValidatorOf(YearField, toNumber)("1990") == Ok("1990")
  {
    ExampleLiterals();
    DayOnIntegerLiterals("3", toNumber);
    MonthOnIntegerLiterals("5", toNumber);
    YearOnIntegerLiterals("1990", toNumber);
  }

  lemma CodeValidator(toNumber: string -> JsNumber, s: string)
    ensures ValidatorOf(CodeField, toNumber)(s) == ValidateCode(s, toNumber)
  {
    assert ValidatorOf(CodeField, toNumber)(s) == FieldValidation(CodeField, s, toNumber);
  }

  lemma ExampleCodeValidations(toNumber: string -> JsNumber)
    requires CoercesIntegers(toNumber)
    ensures ValidatorOf(CodeField, toNumber)("2314") == Ok("2314")
    ensures ValidatorOf(CodeField, toNumber)("231") == Err("liczba musi byc powyzej 1000")
  {
    CodeExamples(toNumber);
    CodeValidator(toNumber, "2314");
    CodeValidator(toNumber, "231");
  }

  /** An accepted input stores its value under the field's key and changes
      no other key but `validationError`. */
  lemma AcceptedInput(p: Page, f: Field, s: string, toNumber: string -> JsNumber)
    requires PageInv(p) && s != ""
    requires ValidatorOf(f, toNumber)(s) == Ok(s)
    ensures var v := HandleInput(p, f, Str(s), toNumber).atom.value;
      Get(v, Key(f)) == Str(s) &&
      forall k :: k != Key(f) && k != ValidationErrorKey ==> Get(v, k) == Get(p.atom.value, k)
  {
    assert InputValue(Str(s)) == s;
    assert IsOk(ValidatorOf(f, toNumber)(InputValue(Str(s))));
    var r := HandleInput(p, f, Str(s), toNumber);
    SameExceptTwo(p.atom.value, r.atom.value, Key(f), ValidationErrorKey);
  }

  lemma SameExceptTwo(a: Value, b: Value, k1: string, k2: string)
    requires SameExcept(a, b, {k1, k2})
    ensures forall k :: k != k1 && k != k2 ==> Get(b, k) == Get(a, k)
  {
    forall k | k != k1 && k != k2
      ensures Get(b, k) == Get(a, k)
    {
      assert k !in {k1, k2};
    }
  }

  /** A rejected input changes no key but `validationError`. */
  lemma RejectedInput(p: Page, f: Field, s: string, toNumber: string -> JsNumber)
    requires PageInv(p)
    requires !IsOk(ValidatorOf(f, toNumber)(s))
    ensures var r := HandleInput(p, f, Str(s), toNumber);
      r.errorTexts[f] == ErrField(ValidatorOf(f, toNumber)(s)) &&
      forall k :: k != ValidationErrorKey ==> Get(r.atom.value, k) == Get(p.atom.value, k)
  {
    assert InputValue(Str(s)) == s || s == "";
    var r := HandleInput(p, f, Str(s), toNumber);
    SameExceptTwo(p.atom.value, r.atom.value, ValidationErrorKey, ValidationErrorKey);
  }

  /** Three accepted inputs for day, month and year, in that order, leave
      those three values in the snapshot and every other key but
      `validationError` as it was. */
  lemma DateEntry(p: Page, d: string, m: string, y: string, toNumber: string -> JsNumber)
    requires PageInv(p) && d != "" && m != "" && y != ""
    requires ValidatorOf(DayField, toNumber)(d) == Ok(d)
    requires ValidatorOf(MonthField, toNumber)(m) == Ok(m)
    requires ValidatorOf(YearField, toNumber)(y) == Ok(y)
    ensures var r := HandleInput(HandleInput(HandleInput(p, DayField, Str(d), toNumber),
                                             MonthField, Str(m), toNumber), YearField, Str(y), toNumber);
      var v := r.atom.value;
      PageInv(r) &&
      Get(v, DayKey) == Str(d) && Get(v, MonthKey) == Str(m) && Get(v, YearKey) == Str(y) &&
      forall k :: k != DayKey && k != MonthKey && k != YearKey && k != ValidationErrorKey ==>
        Get(v, k) == Get(p.atom.value, k)
  {
    KeysDistinct();
    var p1 := HandleInput(p, DayField, Str(d), toNumber);
    AcceptedInput(p, DayField, d, toNumber);
    var p2 := HandleInput(p1, MonthField, Str(m), toNumber);
    AcceptedInput(p1, MonthField, m, toNumber);
    var p3 := HandleInput(p2, YearField, Str(y), toNumber);
    AcceptedInput(p2, YearField, y, toNumber);
  }

  /** A rejected input leaves day, month, year and code alone, so the
      password box shows the password it showed for them before. */
  lemma RejectedInputOutput(p: Page, f: Field, s: string, toNumber: string -> JsNumber)
    requires PageInv(p)
    requires !IsOk(ValidatorOf(f, toNumber)(s))
    ensures var v := p.atom.value;
      var r := HandleInput(p, f, Str(s), toNumber);
      r.errorTexts[f] == ErrField(ValidatorOf(f, toNumber)(s)) &&
      r.output == if DateComplete(v) then GenPass(FormValidDate(v), Get(v, CodeKey)) else p.output
  {
    var v := p.atom.value;
    var w := HandleInput(p, f, Str(s), toNumber).atom.value;
    RejectedInput(p, f, s, toNumber);
    assert Get(w, DayKey) == Get(v, DayKey) && Get(w, MonthKey) == Get(v, MonthKey) by { KeysDistinct(); }
    assert Get(w, YearKey) == Get(v, YearKey) && Get(w, CodeKey) == Get(v, CodeKey) by { KeysDistinct(); }
    assert FormValidDate(w) == FormValidDate(v);
    HandleInputOutput(p, f, Str(s), toNumber);
  }

  /** With the date complete, an accepted code shows the password of the
      current date and that code. */
  lemma AcceptedCodeOutput(p: Page, s: string, toNumber: string -> JsNumber)
    requires PageInv(p) && s != "" && DateComplete(p.atom.value)
    requires ValidatorOf(CodeField, toNumber)(s) == Ok(s)
    ensures HandleInput(p, CodeField, Str(s), toNumber).output == GenPass(FormValidDate(p.atom.value), Str(s))
  {
    var v := p.atom.value;
    var w := HandleInput(p, CodeField, Str(s), toNumber).atom.value;
    AcceptedInput(p, CodeField, s, toNumber);
    assert Get(w, DayKey) == Get(v, DayKey) && Get(w, MonthKey) == Get(v, MonthKey) by { KeysDistinct(); }
    assert Get(w, YearKey) == Get(v, YearKey) by { KeysDistinct(); }
    assert FormValidDate(w) == FormValidDate(v);
    HandleInputOutput(p, CodeField, Str(s), toNumber);
  }

  /** With 3 May 1990 entered, typing the code "2314" shows the password
      "9910". */
  lemma ExamplePassword(p: Page, toNumber: string -> JsNumber)
    requires PageInv(p) && CoercesIntegers(toNumber)
    requires Get(p.atom.value, DayKey) == Str("3") && Get(p.atom.value, MonthKey) == Str("5")
    requires Get(p.atom.value, YearKey) == Str("1990")
    ensures HandleInput(p, CodeField, Str("2314"), toNumber).output == "9910"
  {
    assert ValidatorOf(CodeField, toNumber)("2314") == Ok("2314") by {
      ExampleCodeValidations(toNumber);
    }
    AcceptedCodeOutput(p, "2314", toNumber);
    FormValidDateExample(p.atom.value);
    GenPassExamples();
  }

  /** With 3 May 1990 entered and no code yet, typing the code "231" is
      rejected as below 1000: the error text says so and the password stays
      empty. The copy button loses its green, as for every rejected code
      (`RejectedInputSetsCopyButton`). */
  lemma ExampleShortCode(p: Page, toNumber: string -> JsNumber)
    requires PageInv(p) && CoercesIntegers(toNumber)
    requires Get(p.atom.value, DayKey) == Str("3") && Get(p.atom.value, MonthKey) == Str("5")
    requires Get(p.atom.value, YearKey) == Str("1990") && Get(p.atom.value, CodeKey) == Null
    ensures var r := HandleInput(p, CodeField, Str("231"), toNumber);
      r.errorTexts[CodeField] == Str("liczba musi byc powyzej 1000") && r.output == ""
  {
    assert ValidatorOf(CodeField, toNumber)("231") == Err("liczba musi byc powyzej 1000") by {
      ExampleCodeValidations(toNumber);
    }
    RejectedInputOutput(p, CodeField, "231", toNumber);
  }

  /** The whole example from any page without a code: day "3", month "5"
      and year "1990" typed in, then the code. The page right after a
      start-up without a stored date is one such page. */
  lemma WorkedExample(p0: Page, toNumber: string -> JsNumber)
    requires PageInv(p0) && CoercesIntegers(toNumber) && Get(p0.atom.value, CodeKey) == Null
    ensures var p := HandleInput(HandleInput(HandleInput(p0, DayField, Str("3"), toNumber),
                                             MonthField, Str("5"), toNumber), YearField, Str("1990"), toNumber);
      HandleInput(p, CodeField, Str("2314"), toNumber).output == "9910" &&
      HandleInput(p, CodeField, Str("231"), toNumber).errorTexts[CodeField] == Str("liczba musi byc powyzej 1000")
  {
    ExampleDateValidations(toNumber);
    DateEntry(p0, "3", "5", "1990", toNumber);
    var p := HandleInput(HandleInput(HandleInput(p0, DayField, Str("3"), toNumber),
                                     MonthField, Str("5"), toNumber), YearField, Str("1990"), toNumber);
    assert Get(p.atom.value, CodeKey) == Null by { KeysDistinct(); }
    ExamplePassword(p, toNumber);
    ExampleShortCode(p, toNumber);
  }

  /** Start-up without a stored date leaves the page without a code. */
  lemma StartupHasNoCode()
    ensures var p := CheckLocalStorage(InitialPage(), None);
      PageInv(p) && Get(p.atom.value, CodeKey) == Null
  {
    var init := InitialPage();
    var p0 := CheckLocalStorage(init, None);
    assert CodeKey != LoadedKey by { KeysDistinct(); }
    assert Get(init.atom.value, CodeKey) == Null;
    assert Get(p0.atom.value, CodeKey) == Get(init.atom.value, CodeKey);
  }
}
