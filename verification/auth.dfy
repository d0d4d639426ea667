/** The entry screen: registering the family (name, members, PIN) and
    unlocking it with the PIN. */
module Auth {
  import opened Optional
  import opened Text
  import opened Types

  datatype Step = Register | Login

  /** The screen's fields. `newMember` is the member field not yet added
      with "+"; `createPin` is the PIN being chosen, `enteredPin` the one
      typed to unlock. */
  datatype AuthState = AuthState(
    step: Step,
    familyName: string,
    members: seq<string>,
    newMember: string,
    createPin: string,
    enteredPin: string,
    error: string)

  /** The screen as it opens: on the PIN prompt when a family is stored,
      otherwise on registration, every field empty. */
  function InitialAuth(existing: Option<FamilyProfile>): (r: AuthState)
    ensures r.step == Login <==> existing.Some?
    ensures r.familyName == "" && r.members == [] && r.newMember == ""
    ensures r.createPin == "" && r.enteredPin == "" && r.error == ""
  {
    AuthState(if existing.Some? then Login else Register, "", [], "", "", "", "")
  }

  /** The PIN fields' pattern `^\d{0,4}$`: at most four ASCII digits. */
  predicate IsPinText(s: string) {
    |s| <= 4 && IsDigits(s)
  }

  /** Typing in the unlock field: accepted text replaces the field and
      clears the error; other text is ignored. */
  function HandlePinChange(st: AuthState, val: string): (r: AuthState)
    ensures IsPinText(val) ==> r == st.(enteredPin := val, error := "")
    ensures !IsPinText(val) ==> r == st
  {
    if IsPinText(val) then st.(enteredPin := val, error := "") else st
  }

  /** Typing in the new-PIN field: accepted text replaces it, other text is
      ignored. */
  function HandleCreatePinChange(st: AuthState, val: string): (r: AuthState)
    ensures IsPinText(val) ==> r == st.(createPin := val)
    ensures !IsPinText(val) ==> r == st
  {
    if IsPinText(val) then st.(createPin := val) else st
  }

  /** The "+" button: a non-blank entry is trimmed and appended, and the field
      cleared; a blank one changes nothing. */
  function AddMember(st: AuthState): (r: AuthState)
    ensures Trim(st.newMember) != "" ==> r == st.(members := st.members + [Trim(st.newMember)], newMember := "")
    ensures Trim(st.newMember) == "" ==> r == st
    ensures r.createPin == st.createPin && r.enteredPin == st.enteredPin
  {
    var name := Trim(st.newMember);
    if name != "" then st.(members := st.members + [name], newMember := "") else st
  }

  /** `s` without the element at position `i`, as `filter((_, k) => k !== i)`
      computes it. */
  function DropIndex<T>(s: seq<T>, i: int): (r: seq<T>)
    ensures 0 <= i < |s| ==> |r| == |s| - 1
    ensures !(0 <= i < |s|) ==> r == s
    decreases |s|
  {
    if s == [] || i < 0 then s
    else if i == 0 then s[1..]
    else
      var r := [s[0]] + DropIndex(s[1..], i - 1);
      assert [s[0]] + s[1..] == s;
      r
  }

  /** Dropping position `i` keeps the elements before and after it, in order. */
  lemma {:induction false} DropIndexSlices<T>(s: seq<T>, i: int)
    requires 0 <= i < |s|
    ensures DropIndex(s, i) == s[..i] + s[i + 1..]
    decreases |s|
  {
    if i > 0 {
      DropIndexSlices(s[1..], i - 1);
      assert s[1..][..i - 1] == s[1..i];
      assert s[1..][i..] == s[i + 1..];
      assert [s[0]] + s[1..i] == s[..i];
    }
  }

  /** A member's remove button during registration: position `i` goes and
      the others keep their order; an index outside the list changes
      nothing. */
  function RemoveMemberAt(st: AuthState, i: int): (r: AuthState)
    ensures 0 <= i < |st.members| ==> r.members == st.members[..i] + st.members[i + 1..]
    ensures !(0 <= i < |st.members|) ==> r == st
    ensures r == st.(members := r.members)
  {
    if 0 <= i < |st.members| then
      DropIndexSlices(st.members, i);
      st.(members := DropIndex(st.members, i))
    else st.(members := DropIndex(st.members, i))
  }

  /** Removing the member just added restores the list. */
  lemma AddThenRemoveMember(st: AuthState)
    requires Trim(st.newMember) != ""
    ensures RemoveMemberAt(AddMember(st), |st.members|).members == st.members
  {
    var ms := st.members + [Trim(st.newMember)];
    assert ms[..|st.members|] == st.members;
  }

  /** The members a registration would save: the list plus the pending,
      non-blank member field. */
  function FinalMembers(st: AuthState): (r: seq<string>)
    ensures |r| == |st.members| + (if Trim(st.newMember) != "" then 1 else 0)
    ensures r[..|st.members|] == st.members
    ensures |r| > |st.members| ==> r[|st.members|] == Trim(st.newMember)
  {
    var name := Trim(st.newMember);
    if name != "" then st.members + [name] else st.members
  }

  /** "Create and enter": registers the family when a name is given, at least
      one member is known and the PIN has four characters; otherwise nothing
      is registered. */
  function RegisterSubmit(st: AuthState): (r: Option<FamilyProfile>)
    ensures r.Some? <==>
      && st.familyName != ""
      && (|st.members| > 0 || Trim(st.newMember) != "")
      && |st.createPin| == 4
    ensures r.Some? ==>
      && r.value.familyName == st.familyName
      && r.value.pin == st.createPin
      && |r.value.members| >= 1
      && |r.value.members| >= |st.members|
      && r.value.members[..|st.members|] == st.members
      && r.value.members == FinalMembers(st)
  {
    var ms := FinalMembers(st);
    if st.familyName != "" && |ms| > 0 && |st.createPin| == 4 then
      Some(FamilyProfile(st.familyName, ms, st.createPin))
    else None
  }

  /** The "Enter" button. The boolean says whether the application is
      unlocked: exactly when a family is stored and the typed PIN equals its
      PIN. Otherwise the typed PIN is wiped and the error shown. */
  function VerifyPin(st: AuthState, existing: Option<FamilyProfile>): (r: (AuthState, bool))
    ensures r.1 <==> existing.Some? && st.enteredPin == existing.value.pin
    ensures r.1 ==> r.0 == st
    ensures !r.1 ==> r.0 == st.(enteredPin := "", error := "PIN Incorrecto")
  {
    match existing
    case Some(f) =>
      if st.enteredPin == f.pin then (st, true)
      else (st.(enteredPin := "", error := "PIN Incorrecto"), false)
    case None => (st.(enteredPin := "", error := "PIN Incorrecto"), false)
  }

  /** What the user can do on the screen. Submitting the registration does not
      change these fields, so it is not an event here. */
  datatype Event =
    | TypeFamilyName(name: string)
    | TypeNewMember(text: string)
    | PressAdd
    | PressRemove(index: int)
    | TypeCreatePin(text: string)
    | TypePin(text: string)
    | PressEnter(existing: Option<FamilyProfile>)
    | FamilyStored

  function Apply(st: AuthState, e: Event): AuthState {
    match e
    case TypeFamilyName(name) => st.(familyName := name)
    case TypeNewMember(text) => st.(newMember := text)
    case PressAdd => AddMember(st)
    case PressRemove(i) => RemoveMemberAt(st, i)
    case TypeCreatePin(text) => HandleCreatePinChange(st, text)
    case TypePin(text) => HandlePinChange(st, text)
    case PressEnter(existing) => VerifyPin(st, existing).0
    case FamilyStored => st.(step := Login)
  }

  /** The screen after the events `es`, the last one latest. */
  function Run(existing: Option<FamilyProfile>, es: seq<Event>): AuthState
    decreases |es|
  {
    if es == [] then InitialAuth(existing) else Apply(Run(existing, es[..|es| - 1]), es[|es| - 1])
  }

  /** Both PIN fields hold what their pattern admits. */
  predicate PinFieldsValid(st: AuthState) {
    IsPinText(st.createPin) && IsPinText(st.enteredPin)
  }

  /** No event breaks the PIN fields' pattern. */
  lemma ApplyKeepsPins(st: AuthState, e: Event)
    requires PinFieldsValid(st)
    ensures PinFieldsValid(Apply(st, e))
  {
  }

  lemma {:induction false} RunKeepsPins(existing: Option<FamilyProfile>, es: seq<Event>)
    ensures PinFieldsValid(Run(existing, es))
    decreases |es|
  {
    if es != [] {
      RunKeepsPins(existing, es[..|es| - 1]);
      ApplyKeepsPins(Run(existing, es[..|es| - 1]), es[|es| - 1]);
    }
  }

  /** Whatever the user did, a registered PIN is exactly four digits. */
  lemma RegisteredPinIsFourDigits(existing: Option<FamilyProfile>, es: seq<Event>)
    requires RegisterSubmit(Run(existing, es)).Some?
    ensures var pin := RegisterSubmit(Run(existing, es)).value.pin;
      |pin| == 4 && IsDigits(pin)
  {
    RunKeepsPins(existing, es);
  }

  /** Typing the registered PIN at the prompt unlocks the application. */
  lemma RegisteredPinUnlocks(st: AuthState, later: AuthState)
    requires PinFieldsValid(st)
    requires RegisterSubmit(st).Some?
    ensures var f := RegisterSubmit(st).value;
      VerifyPin(HandlePinChange(later, f.pin), Some(f)).1
  {
  }
}
