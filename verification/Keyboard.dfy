// The key filter between the keyboard and the focused client, and the registry
// of global shortcuts it serves.
module Keyboard {
  import opened Common

  // ------------------------------------------------------------------
  // Bindings

  const KEY_BACKSPACE: nat := 0xff08
  const KEY_TAB: nat := 0xff09
  const KEY_RETURN: nat := 0xff0d
  const KEY_ESCAPE: nat := 0xff1b
  const KEY_ISO_LEFT_TAB: nat := 0xfe20
  const KEY_F1: nat := 0xffbe
  const KEY_F9: nat := 0xffc6
  const KEY_F12: nat := 0xffc9
  const KEY_ALT_L: nat := 0xffe9
  const KEY_ALT_R: nat := 0xffea
  const KEY_SUPER_L: nat := 0xffeb
  const KEY_SUPER_R: nat := 0xffec
  const KEY_XF86SWITCH_VT_1: nat := 0x1008FE01
  const KEY_XF86SWITCH_VT_12: nat := 0x1008FE0C

  datatype Mods = Mods(ctrl: bool, alt: bool, shift: bool, logo: bool)

  datatype Modkey = Alt | Super

  datatype BindingKey = Keysym(sym: nat) | Mouse(button: nat) | Modifier(modkey: Modkey)

  datatype Combination = Combination(mods: Mods, key: BindingKey)

  datatype Identity = Identity(app: string, session: string, shortcut: string)

  datatype Dispatch = Activated(id: Identity) | Deactivated(id: Identity) | Quit | Other(command: string)

  datatype Keybind = Keybind(keys: Combination, dispatch: Dispatch)

  predicate Matches(key: BindingKey, sym: nat) {
    match key
    case Mouse(_) => false
    case Keysym(expected) => sym == expected || (expected == KEY_TAB && sym == KEY_ISO_LEFT_TAB)
    case Modifier(Alt) => sym == KEY_ALT_L || sym == KEY_ALT_R
    case Modifier(Super) => sym == KEY_SUPER_L || sym == KEY_SUPER_R
  }

  predicate Answers(b: Keybind, syms: seq<nat>, mods: Mods) {
    b.keys.mods == mods && exists i :: 0 <= i < |syms| && Matches(b.keys.key, syms[i])
  }

  // The first binding that answers, if any does.
  function FindBinding(bindings: seq<Keybind>, syms: seq<nat>, mods: Mods): (r: Option<Keybind>)
    ensures r.Some? ==> exists k :: 0 <= k < |bindings| && bindings[k] == r.value && Answers(r.value, syms, mods)
                                    && forall j :: 0 <= j < k ==> !Answers(bindings[j], syms, mods)
    ensures r.None? ==> forall b :: b in bindings ==> !Answers(b, syms, mods)
  {
    if bindings == [] then None
    else if Answers(bindings[0], syms, mods) then
      assert bindings[0] == bindings[0];
      Some(bindings[0])
    else
      var rest := FindBinding(bindings[1..], syms, mods);
      FoundInTail(bindings, syms, mods, rest);
      rest
  }

  lemma FoundInTail(bindings: seq<Keybind>, syms: seq<nat>, mods: Mods, r: Option<Keybind>)
    requires bindings != [] && !Answers(bindings[0], syms, mods)
    requires r.Some? ==>
             exists k :: 0 <= k < |bindings[1..]| && bindings[1..][k] == r.value && Answers(r.value, syms, mods)
                                     && forall j :: 0 <= j < k ==> !Answers(bindings[1..][j], syms, mods)
    ensures r.Some? ==> exists k :: 0 <= k < |bindings| && bindings[k] == r.value && Answers(r.value, syms, mods)
                                    && forall j :: 0 <= j < k ==> !Answers(bindings[j], syms, mods)
  {
    if r.Some? {
      var k :| 0 <= k < |bindings[1..]| && bindings[1..][k] == r.value && Answers(r.value, syms, mods)
        && forall j :: 0 <= j < k ==> !Answers(bindings[1..][j], syms, mods);
      forall j | 0 <= j < k + 1 ensures !Answers(bindings[j], syms, mods) {
        assert j > 0 ==> bindings[1..][j - 1] == bindings[j];
      }
      assert bindings[k + 1] == r.value;
    }
  }

  // ------------------------------------------------------------------
  // The filter as a function

  datatype Key = Key(code: nat, pressed: bool, syms: seq<nat>, modified: nat, mods: Mods)

  datatype Action = Dispatch(dispatch: Dispatch) | Vt(number: nat) | FinishInteraction(commit: bool)

  datatype Verdict = Forward | Intercept(action: Option<Action>)

  // What else the filter looks at while handling one key.
  datatype Context = Context(inhibited: bool, selecting: bool, interacting: bool, tty: bool,
                             configured: seq<Keybind>, globals: seq<Keybind>)

  // Configuration files cannot name the portal's dispatches, and the registry
  // holds nothing else.
  ghost predicate ContextOk(context: Context) {
    && (forall b :: b in context.configured ==> !b.dispatch.Activated? && !b.dispatch.Deactivated?)
    && (forall b :: b in context.globals ==> b.dispatch.Activated? && b.keys.key.Keysym?)
  }

  datatype Filter = Filter(suppressed: set<nat>, pending: Option<(nat, Dispatch)>, active: map<nat, Identity>)

  const IDLE := Filter({}, None, map[])

  function FirstFunctionKey(syms: seq<nat>): Option<nat> {
    if syms == [] then None
    else if KEY_F1 <= syms[0] <= KEY_F12 then Some(syms[0] - KEY_F1 + 1)
    else FirstFunctionKey(syms[1..])
  }

  // Session chords: quitting, and switching virtual terminals.
  function SessionChord(key: Key, tty: bool): Option<Action> {
    if !(key.mods.ctrl && key.mods.alt) then None
    else if KEY_BACKSPACE in key.syms then Some(Dispatch(Quit))
    else if tty && KEY_XF86SWITCH_VT_1 <= key.modified <= KEY_XF86SWITCH_VT_12 then
      Some(Vt(key.modified - KEY_XF86SWITCH_VT_1 + 1))
    else if tty && FirstFunctionKey(key.syms).Some? then Some(Vt(FirstFunctionKey(key.syms).value))
    else None
  }

  // The binding a press may trigger; configured ones win over global ones.
  function BindingFor(key: Key, context: Context): Option<Keybind> {
    if context.inhibited then None
    else
      var configured := FindBinding(context.configured, key.syms, key.mods);
      if configured.Some? then configured else FindBinding(context.globals, key.syms, key.mods)
  }

  function Released(s: Filter, code: nat, context: Context): (Filter, Verdict) {
    if code in s.active then
      (s.(active := s.active - {code}), Intercept(Some(Dispatch(Deactivated(s.active[code])))))
    else if s.pending.Some? && s.pending.value.0 == code then
      (s.(suppressed := s.suppressed - {code}, pending := None),
       Intercept(if context.inhibited then None else Some(Dispatch(s.pending.value.1))))
    else if code in s.suppressed then
      (s.(suppressed := s.suppressed - {code}), Intercept(None))
    else
      (s, if context.selecting || context.interacting then Intercept(None) else Forward)
  }

  function Pressed(s: Filter, key: Key, context: Context): (Filter, Verdict) {
    var held := s.(suppressed := s.suppressed + {key.code});
    if key.code in s.suppressed then (s, Intercept(None))
    else if context.selecting then (held, Intercept(None))
    else if context.interacting then
      (held, Intercept(if KEY_ESCAPE in key.syms then Some(FinishInteraction(false))
                       else if KEY_RETURN in key.syms then Some(FinishInteraction(true)) else None))
    else
      var lone := if s.pending.Some? && s.pending.value.0 != key.code then None else s.pending;
      var chord, binding := SessionChord(key, context.tty), BindingFor(key, context);
      if chord.Some? then (held.(pending := lone), Intercept(chord))
      else if binding.None? then (s.(pending := lone), Forward)
      else if binding.value.keys.key.Modifier? then
        (held.(pending := Some((key.code, binding.value.dispatch))), Intercept(None))
      else
        var active := if binding.value.dispatch.Activated? then s.active[key.code := binding.value.dispatch.id]
            else s.active;
        (Filter(held.suppressed, lone, active), Intercept(Some(Dispatch(binding.value.dispatch))))
  }

  function Filtered(s: Filter, key: Key, context: Context): (Filter, Verdict) {
    if key.pressed then Pressed(s, key, context) else Released(s, key.code, context)
  }

  // ------------------------------------------------------------------
  // The filter in place

  class KeyFilter {
    var suppressed: set<nat>
    var pending: Option<(nat, Dispatch)>
    var active: map<nat, Identity>

    ghost function State(): Filter
      reads this
    {
      Filter(suppressed, pending, active)
    }

    constructor ()
      ensures State() == IDLE
    {
      suppressed, pending, active := {}, None, map[];
    }

    method HandleKey(key: Key, context: Context) returns (verdict: Verdict)
      requires ContextOk(context)
      modifies this
      ensures (State(), verdict) == Filtered(old(State()), key, context)
    {
      var code, pressed := key.code, key.pressed;
      if !pressed && code in active {
        var id := active[code];
        active := active - {code};
        return Intercept(Some(Dispatch(Deactivated(id))));
      }
      if !pressed && pending.Some? && pending.value.0 == code {
        var dispatch := pending.value.1;
        pending := None;
        suppressed := suppressed - {code};
        return Intercept(if context.inhibited then None else Some(Dispatch(dispatch)));
      }
      if !pressed && code in suppressed {
        suppressed := suppressed - {code};
        return Intercept(None);
      }
      if code in suppressed {
        return Intercept(None);
      }
      if context.selecting {
        if pressed {
          suppressed := suppressed + {code};
        }
        return Intercept(None);
      }
      if context.interacting {
        if pressed {
          suppressed := suppressed + {code};
          if KEY_ESCAPE in key.syms {
            return Intercept(Some(FinishInteraction(false)));
          }
          if KEY_RETURN in key.syms {
            return Intercept(Some(FinishInteraction(true)));
          }
        }
        return Intercept(None);
      }
      if !pressed {
        return Forward;
      }
      verdict := ResolvePress(key, context);
    }

    // The bindings' part of a press, in order: session chords, a lone modifier,
    // configured bindings, global shortcuts.
    method ResolvePress(key: Key, context: Context) returns (verdict: Verdict)
      requires ContextOk(context) && key.pressed && key.code !in suppressed && !context.selecting
               && !context.interacting
      modifies this
      ensures (State(), verdict) == Filtered(old(State()), key, context)
    {
      if pending.Some? && pending.value.0 != key.code {
        pending := None;
      }
      var chord := SessionChord(key, context.tty);
      if chord.Some? {
        suppressed := suppressed + {key.code};
        return Intercept(chord);
      }
      var configured := FindBinding(context.configured, key.syms, key.mods);
      if !context.inhibited && configured.Some? && configured.value.keys.key.Modifier? {
        pending := Some((key.code, configured.value.dispatch));
        suppressed := suppressed + {key.code};
        return Intercept(None);
      }
      var binding := if configured.Some? then configured else FindBinding(context.globals, key.syms, key.mods);
      if !context.inhibited && binding.Some? {
        if binding.value.dispatch.Activated? {
          active := active[key.code := binding.value.dispatch.id];
        }
        suppressed := suppressed + {key.code};
        return Intercept(Some(Dispatch(binding.value.dispatch)));
      }
      return Forward;
    }
  }

  // ------------------------------------------------------------------
  // Traces

  datatype Event =
    | KeyEvent(key: Key, context: Context)
    | PendingDropped                        // a pointer button or a starting drag drops a pending modifier
    | FocusLost                             // the compositor releases every key and forgets what it swallowed

  function After(s: Filter, event: Event): Filter {
    match event
    case KeyEvent(key, context) => Filtered(s, key, context).0
    case PendingDropped => s.(pending := None)
    case FocusLost => Filter({}, None, s.active)
  }

  function State(trace: seq<Event>): Filter {
    if trace == [] then IDLE else After(State(trace[..|trace| - 1]), trace[|trace| - 1])
  }

  function Down(trace: seq<Event>): set<nat> {
    if trace == [] then {}
    else
      var before := Down(trace[..|trace| - 1]);
      match trace[|trace| - 1]
      case KeyEvent(key, _) => if key.pressed then before + {key.code} else before - {key.code}
      case PendingDropped => before
      case FocusLost => {}
  }

  predicate IsPress(event: Event, code: nat) {
    event.KeyEvent? && event.key.pressed && event.key.code == code
  }

  predicate IsRelease(event: Event, code: nat) {
    event.KeyEvent? && !event.key.pressed && event.key.code == code
  }

  // Each key goes down and up in turn.
  ghost predicate WellFormed(trace: seq<Event>) {
    trace == [] || (WellFormed(trace[..|trace| - 1]) && Admissible(trace[..|trace| - 1], trace[|trace| - 1]))
  }

  // A key goes down only when it is up, and up only when it is down.
  ghost predicate Admissible(trace: seq<Event>, event: Event) {
    event.KeyEvent? ==> ContextOk(event.context) && (event.key.pressed <==> event.key.code !in Down(trace))
  }

  // What became of the last event.
  function Outcome(trace: seq<Event>): Verdict
    requires trace != [] && trace[|trace| - 1].KeyEvent?
  {
    var last := trace[|trace| - 1];
    Filtered(State(trace[..|trace| - 1]), last.key, last.context).1
  }

  // The trace up to and including the last press of a key.
  function LastPress(trace: seq<Event>, code: nat): (r: seq<Event>)
    ensures r <= trace && (r != [] ==> IsPress(r[|r| - 1], code))
  {
    if trace == [] then []
    else if IsPress(trace[|trace| - 1], code) then trace
    else LastPress(trace[..|trace| - 1], code)
  }

  predicate Activation(v: Verdict) {
    v.Intercept? && v.action.Some? && v.action.value.Dispatch? && v.action.value.dispatch.Activated?
  }

  predicate Deactivation(v: Verdict) {
    v.Intercept? && v.action.Some? && v.action.value.Dispatch? && v.action.value.dispatch.Deactivated?
  }

  ghost predicate PendingOk(s: Filter, code: nat) {
    && (s.pending.Some? ==> !s.pending.value.1.Activated? && !s.pending.value.1.Deactivated?)
    && (s.pending.Some? && s.pending.value.0 == code ==> code in s.suppressed)
  }

  // What the filter remembers about a key follows from its last press.
  ghost predicate Remembers(trace: seq<Event>, code: nat)
  {
    var s, press := State(trace), LastPress(trace, code);
    && PendingOk(s, code)
    && (code in Down(trace) ==>
          && press != []
          && (code in s.suppressed <==> Outcome(press) != Forward)
          && (code in s.active <==> Activation(Outcome(press)) || code in State(press[..|press| - 1]).active)
          && (Activation(Outcome(press)) ==> Outcome(press) == Intercept(Some(Dispatch(Activated(s.active[code]))))))
  }

  lemma {:induction false} FilterRemembers(trace: seq<Event>, code: nat)
    requires WellFormed(trace)
    ensures Remembers(trace, code)
  {
    if trace != [] {
      var front, last := trace[..|trace| - 1], trace[|trace| - 1];
      FilterRemembers(front, code);
      assert PendingOk(State(trace), code) by { PendingKept(State(front), last, code); }
      if code in Down(trace) {
        if IsPress(last, code) {
          PressTold(State(front), last, code);
        } else {
          HeldKept(State(front), last, code);
        }
      }
    }
  }

  lemma PendingKept(s: Filter, event: Event, code: nat)
    requires PendingOk(s, code) && (event.KeyEvent? ==> ContextOk(event.context))
    ensures PendingOk(After(s, event), code)
  {
  }

  // What the filter holds about a key tells what became of its press.
  lemma PressTold(s: Filter, event: Event, code: nat)
    requires IsPress(event, code) && ContextOk(event.context)
    ensures var (r, verdict) := Filtered(s, event.key, event.context);
            && (code in r.suppressed <==> verdict != Forward)
            && (code in r.active <==> Activation(verdict) || code in s.active)
            && (Activation(verdict) ==> verdict == Intercept(Some(Dispatch(Activated(r.active[code])))))
  {
  }

  // What is not about a key that is down leaves what the filter holds about it.
  lemma HeldKept(s: Filter, event: Event, code: nat)
    requires PendingOk(s, code) && !event.FocusLost?
             && (event.KeyEvent? ==> ContextOk(event.context) && event.key.code != code)
    ensures var r := After(s, event);
            && (code in r.suppressed <==> code in s.suppressed) && (code in r.active <==> code in s.active)
            && (code in s.active ==> r.active[code] == s.active[code])
            && (r.pending.Some? && r.pending.value.0 == code ==> s.pending == r.pending)
  {
  }

  ghost predicate FocusKept(trace: seq<Event>) {
    forall i :: 0 <= i < |trace| ==> !trace[i].FocusLost?
  }

  lemma {:induction false} PrefixWellFormed(trace: seq<Event>, n: nat)
    requires WellFormed(trace) && n <= |trace|
    ensures WellFormed(trace[..n])
  {
    if n < |trace| {
      PrefixWellFormed(trace[..|trace| - 1], n);
      assert trace[..|trace| - 1][..n] == trace[..n];
    } else {
      assert trace[..n] == trace;
    }
  }

  // While the compositor keeps the keyboard, a key that is up has no live shortcut.
  lemma {:induction false} NoLeftovers(trace: seq<Event>, code: nat)
    requires WellFormed(trace) && FocusKept(trace)
    ensures code in State(trace).active ==> code in Down(trace)
  {
    if trace != [] {
      NoLeftovers(trace[..|trace| - 1], code);
    }
  }

  // The fate of a release is the fate of its press. A release reaches the
  // client exactly when the press did, unless a selection or a drag began
  // in between or a shortcut from before a focus loss is still live.
  lemma ReleaseFollowsPress(trace: seq<Event>, code: nat)
    requires WellFormed(trace) && trace != [] && IsRelease(trace[|trace| - 1], code)
    ensures var press, context := LastPress(trace, code), trace[|trace| - 1].context;
            && press != []
            && var stale := code in State(press[..|press| - 1]).active;
            && (Outcome(trace) == Forward
                <==> Outcome(press) == Forward && !context.selecting && !context.interacting && !stale)
            && (Deactivation(Outcome(trace)) <==> Activation(Outcome(press)) || stale)
            && (Activation(Outcome(press)) ==>
                  Outcome(trace) == Intercept(Some(Dispatch(Deactivated(Outcome(press).action.value.dispatch.id)))))
  {
    FilterRemembers(trace[..|trace| - 1], code);
  }

  // Without focus loss, presses and releases pair up exactly: for the client
  // outside selections and drags, and for every portal shortcut.
  lemma KeysPairUp(trace: seq<Event>, code: nat)
    requires WellFormed(trace) && FocusKept(trace) && trace != [] && IsRelease(trace[|trace| - 1], code)
    ensures var press, context := LastPress(trace, code), trace[|trace| - 1].context;
            && press != []
            && (Outcome(trace) == Forward <==> Outcome(press) == Forward && !context.selecting && !context.interacting)
            && (Deactivation(Outcome(trace)) <==> Activation(Outcome(press)))
            && (Activation(Outcome(press)) ==>
                  Outcome(trace) == Intercept(Some(Dispatch(Deactivated(Outcome(press).action.value.dispatch.id)))))
  {
    ReleaseFollowsPress(trace, code);
    var press := LastPress(trace, code);
    var before := press[..|press| - 1];
    PrefixWellFormed(trace, |press|);
    assert trace[..|press|] == press;
    assert FocusKept(before) by {
      forall i | 0 <= i < |before| ensures !before[i].FocusLost? {
        assert trace[i] == before[i];
      }
    }
    NoLeftovers(before, code);
  }

  // A global shortcut on F9 is down when focus is lost; the same key pressed
  // without the modifier afterwards reaches the client, its release does not.
  lemma FocusLossStrandsKey(shortcut: Identity)
    ensures exists trace: seq<Event> :: WellFormed(trace) && trace != [] && IsRelease(trace[|trace| - 1], 75)
              && LastPress(trace, 75) != [] && Outcome(LastPress(trace, 75)) == Forward && Outcome(trace) != Forward
              && !trace[|trace| - 1].context.selecting && !trace[|trace| - 1].context.interacting
  {
    var context := Context(false, false, false, false, [],
                           [Keybind(Combination(Mods(true, false, false, false), Keysym(KEY_F9)),
                               Activated(shortcut))]);
    var chord := KeyEvent(Key(75, true, [KEY_F9], KEY_F9, Mods(true, false, false, false)), context);
    var press := KeyEvent(Key(75, true, [KEY_F9], KEY_F9, Mods(false, false, false, false)), context);
    var t2, t3 := [chord] + [FocusLost], [chord] + [FocusLost] + [press];
    var release := KeyEvent(press.key.(pressed := false), context);
    var live := Filter({}, None, map[75 := shortcut]);
    assert State(t2) == live && Down(t2) == {} && WellFormed(t2) by {
      ChordHeld(chord, shortcut);
      Extended([], chord, 75);
      Extended([chord], FocusLost, 75);
    }
    PlainForwarded(press, live);
    Extended(t2, press, 75);
    Extended(t3, release, 75);
    assert Outcome(t3) == Forward && LastPress(t3 + [release], 75) == t3;
    assert Outcome(t3 + [release]) != Forward;
  }

  lemma ChordHeld(event: Event, shortcut: Identity)
    requires event.KeyEvent? && event.key == Key(75, true, [KEY_F9], KEY_F9, Mods(true, false, false, false))
    requires event.context == Context(false, false, false, false, [],
                                      [Keybind(Combination(event.key.mods, Keysym(KEY_F9)), Activated(shortcut))])
    ensures After(IDLE, event) == Filter({75}, None, map[75 := shortcut])
  {
    assert [KEY_F9][0] == KEY_F9;
    assert FindBinding(event.context.configured, event.key.syms, event.key.mods).None?;
    assert FindBinding(event.context.globals, event.key.syms, event.key.mods) == Some(event.context.globals[0]);
  }

  lemma PlainForwarded(event: Event, live: Filter)
    requires event.KeyEvent? && event.key == Key(75, true, [KEY_F9], KEY_F9, Mods(false, false, false, false))
    requires !event.context.selecting && !event.context.interacting && event.context.configured == []
    requires live.suppressed == {} && live.pending.None?
    requires |event.context.globals| == 1 && event.context.globals[0].keys.mods == Mods(true, false, false, false)
    ensures Filtered(live, event.key, event.context) == (live, Forward)
  {
    assert FindBinding(event.context.globals, event.key.syms, event.key.mods).None?;
  }

  // One event more.
  lemma Extended(trace: seq<Event>, event: Event, code: nat)
    ensures var r := trace + [event];
            && r[|r| - 1] == event && r[..|trace|] == trace && State(r) == After(State(trace), event)
            && LastPress(r, code) == (if IsPress(event, code) then r else LastPress(trace, code))
            && (event.FocusLost? ==> Down(r) == {})
    ensures event.KeyEvent? ==> Outcome(trace + [event]) == Filtered(State(trace), event.key, event.context).1
    ensures event.KeyEvent? && event.key.pressed ==> Down(trace + [event]) == Down(trace) + {event.key.code}
    ensures WellFormed(trace) && Admissible(trace, event) ==> WellFormed(trace + [event])
  {
    assert (trace + [event])[..|trace|] == trace;
  }

  // ------------------------------------------------------------------
  // When a global shortcut activates

  // After a release the filter goes on swallowing the key exactly when the
  // release ended a shortcut.
  lemma SwallowsAfterShortcut(trace: seq<Event>, code: nat)
    requires WellFormed(trace) && FocusKept(trace) && trace != [] && IsRelease(trace[|trace| - 1], code)
    ensures code in State(trace).suppressed <==> Deactivation(Outcome(trace))
  {
    FilterRemembers(trace[..|trace| - 1], code);
    KeysPairUp(trace, code);
  }

  function Presses(trace: seq<Event>, code: nat): nat {
    if trace == [] then 0
    else Presses(trace[..|trace| - 1], code) + if IsPress(trace[|trace| - 1], code) then 1 else 0
  }

  // Whether the last press of a key, if there was one, activated a shortcut.
  ghost predicate LastActivates(trace: seq<Event>, code: nat) {
    LastPress(trace, code) != [] && Activation(Outcome(LastPress(trace, code)))
  }

  // What the filter holds about a key between presses.
  ghost predicate Rests(trace: seq<Event>, code: nat) {
    var s := State(trace);
    && (code !in Down(trace) ==> (code in s.suppressed <==> LastActivates(trace, code)))
    && (s.pending.Some? && s.pending.value.0 == code ==>
          code in Down(trace) && LastPress(trace, code) != [] && !LastActivates(trace, code))
  }

  lemma PressPends(s: Filter, event: Event, code: nat)
    requires IsPress(event, code) && PendingOk(s, code)
    ensures var (r, verdict) := Filtered(s, event.key, event.context);
            r.pending.Some? && r.pending.value.0 == code ==> !Activation(verdict)
  {
  }

  lemma ReleaseRests(trace: seq<Event>, code: nat)
    requires WellFormed(trace) && FocusKept(trace) && trace != [] && IsRelease(trace[|trace| - 1], code)
    requires Rests(trace[..|trace| - 1], code) && Remembers(trace[..|trace| - 1], code)
    ensures Rests(trace, code)
  {
    assert code in State(trace).suppressed <==> LastActivates(trace, code) by {
      SwallowsAfterShortcut(trace, code);
      KeysPairUp(trace, code);
    }
  }

  lemma {:induction false} FilterRests(trace: seq<Event>, code: nat)
    requires WellFormed(trace) && FocusKept(trace)
    ensures Rests(trace, code)
  {
    if trace != [] {
      var front, last := trace[..|trace| - 1], trace[|trace| - 1];
      assert FocusKept(front);
      FilterRests(front, code);
      FilterRemembers(front, code);
      if IsRelease(last, code) {
        ReleaseRests(trace, code);
      } else if IsPress(last, code) {
        PressPends(State(front), last, code);
      } else {
        HeldKept(State(front), last, code);
      }
    }
  }

  // A press that a global shortcut is bound to, with nothing in its way.
  ghost predicate Bound(event: Event) {
    event.KeyEvent? &&
    var (key, context) := (event.key, event.context);
    && !context.selecting && !context.interacting && SessionChord(key, context.tty).None?
    && BindingFor(key, context).Some? && BindingFor(key, context).value.dispatch.Activated?
  }

  // Such a press activates the shortcut exactly when the previous press of the
  // key, whatever it met, did not activate one; otherwise it is swallowed.
  lemma PressActivatesIff(trace: seq<Event>, code: nat)
    requires WellFormed(trace) && FocusKept(trace)
    requires trace != [] && IsPress(trace[|trace| - 1], code) && Bound(trace[|trace| - 1])
    ensures Activation(Outcome(trace)) <==> !LastActivates(trace[..|trace| - 1], code)
    ensures !Activation(Outcome(trace)) ==> Outcome(trace) == Intercept(None)
  {
    assert FocusKept(trace[..|trace| - 1]);
    FilterRests(trace[..|trace| - 1], code);
  }

  ghost predicate AlwaysBound(trace: seq<Event>, code: nat) {
    forall i :: 0 <= i < |trace| && IsPress(trace[i], code) ==> Bound(trace[i])
  }

  ghost predicate Parity(trace: seq<Event>, code: nat) {
    LastActivates(trace, code) <==> Presses(trace, code) % 2 == 1
  }

  lemma {:induction false} LastPressParity(trace: seq<Event>, code: nat)
    requires WellFormed(trace) && FocusKept(trace) && AlwaysBound(trace, code)
    ensures Parity(trace, code)
  {
    if trace != [] {
      var front := trace[..|trace| - 1];
      assert FocusKept(front) && AlwaysBound(front, code);
      LastPressParity(front, code);
      if IsPress(trace[|trace| - 1], code) {
        assert Activation(Outcome(trace)) <==> !LastActivates(front, code) by { PressActivatesIff(trace, code); }
        ParityTurns(trace, code);
      }
    }
  }

  lemma ParityTurns(trace: seq<Event>, code: nat)
    requires trace != [] && IsPress(trace[|trace| - 1], code) && Parity(trace[..|trace| - 1], code)
    requires Activation(Outcome(trace)) <==> !LastActivates(trace[..|trace| - 1], code)
    ensures Parity(trace, code)
  {
    assert LastPress(trace, code) == trace;
  }

  // So a key that is always bound activates its shortcut on every other press
  // only: the first, third, fifth press activate, the others are swallowed.
  lemma EveryOtherPressActivates(trace: seq<Event>, code: nat)
    requires WellFormed(trace) && FocusKept(trace) && AlwaysBound(trace, code)
    requires trace != [] && IsPress(trace[|trace| - 1], code)
    ensures Activation(Outcome(trace)) <==> Presses(trace, code) % 2 == 1
    ensures Outcome(trace) == Intercept(None) <==> Presses(trace, code) % 2 == 0
  {
    LastPressParity(trace, code);
    PressActivatesIff(trace, code);
  }

  // A global shortcut on F9: the first press activates it, the second is swallowed.
  lemma SecondPressSwallowed(shortcut: Identity)
    ensures exists trace: seq<Event> ::
            WellFormed(trace) && FocusKept(trace) && AlwaysBound(trace, 75) && Presses(trace, 75) == 2
              && IsPress(trace[|trace| - 1], 75) && Outcome(trace) == Intercept(None)
  {
    var ctrl := Mods(true, false, false, false);
    var context :=
        Context(false, false, false, false, [], [Keybind(Combination(ctrl, Keysym(KEY_F9)), Activated(shortcut))]);
    var press := KeyEvent(Key(75, true, [KEY_F9], KEY_F9, ctrl), context);
    var release := KeyEvent(press.key.(pressed := false), context);
    var live, idle := Filter({75}, None, map[75 := shortcut]), Filter({75}, None, map[]);
    var t1, t2, t3 := [press], [press] + [release], [press] + [release] + [press];
    ChordHeld(press, shortcut);
    ChordBound(press, shortcut);
    assert After(live, release) == idle && After(idle, press) == idle;
    Extended([], press, 75);
    Extended(t1, release, 75);
    Extended(t2, press, 75);
    PressedTwice(t3, press, release);
    assert Outcome(t3) == Intercept(None);
  }

  lemma ChordBound(event: Event, shortcut: Identity)
    requires event.KeyEvent? && event.key == Key(75, true, [KEY_F9], KEY_F9, Mods(true, false, false, false))
    requires event.context == Context(false, false, false, false, [],
                                      [Keybind(Combination(event.key.mods, Keysym(KEY_F9)), Activated(shortcut))])
    ensures Bound(event) && ContextOk(event.context)
  {
    assert [KEY_F9][0] == KEY_F9;
    assert FindBinding(event.context.configured, event.key.syms, event.key.mods).None?;
    assert FindBinding(event.context.globals, event.key.syms, event.key.mods) == Some(event.context.globals[0]);
  }

  lemma PressesOn(trace: seq<Event>, event: Event, code: nat)
    ensures Presses(trace + [event], code) == Presses(trace, code) + if IsPress(event, code) then 1 else 0
  {
    assert (trace + [event])[..|trace|] == trace;
  }

  lemma PressedTwice(trace: seq<Event>, press: Event, release: Event)
    requires trace == [press] + [release] + [press] && IsPress(press, 75) && IsRelease(release, 75) && Bound(press)
    ensures FocusKept(trace) && AlwaysBound(trace, 75) && Presses(trace, 75) == 2
  {
    assert Presses([press], 75) == 1 by {
      PressesOn([], press, 75);
      assert [] + [press] == [press];
    }
    assert Presses([press] + [release], 75) == 1 by { PressesOn([press], release, 75); }
    PressesOn([press] + [release], press, 75);
  }

  // An inhibitor hands the client every key but the session chords: outside
  // selections and drags a fresh press is intercepted exactly for a chord.
  lemma InhibitionLeavesChords(s: Filter, key: Key, context: Context)
    requires key.pressed && context.inhibited && key.code !in s.suppressed && !context.selecting && !context.interacting
    ensures Filtered(s, key, context).1 != Forward <==> SessionChord(key, context.tty).Some?
    ensures SessionChord(key, context.tty).Some? ==>
            Filtered(s, key, context).1.action == SessionChord(key, context.tty)
  {
  }

  // ------------------------------------------------------------------
  // The registry of global shortcuts

  const MAX_GLOBAL_SHORTCUTS: nat := 1024

  // Quitting and switching terminals cannot be taken over.
  predicate ReservedChord(keys: Combination) {
    keys.mods == Mods(true, true, false, false)
    && keys.key.Keysym? && (keys.key.sym == KEY_BACKSPACE || KEY_F1 <= keys.key.sym <= KEY_F12)
  }

  datatype RegistryError = EmptyId | Duplicate | BadTrigger | TriggerTaken | LimitReached | NotRegistered | Conflict

  datatype Result = Ok | Err(error: RegistryError)

  // What registering wants of the trigger: parsing is not part of this model;
  // a trigger that parses names one keyboard key.
  ghost predicate TriggerOk(trigger: Option<Combination>) {
    trigger.Some? ==> trigger.value.key.Keysym?
  }

  function Registered(bindings: seq<Keybind>, id: Identity): (r: Option<nat>)
    ensures r.Some? ==> r.value < |bindings| && bindings[r.value].dispatch == Activated(id)
    ensures r.None? ==> forall b :: b in bindings ==> b.dispatch != Activated(id)
  {
    if bindings == [] then None
    else if bindings[0].dispatch == Activated(id) then Some(0)
    else
      match Registered(bindings[1..], id)
      case Some(k) => Some(k + 1)
      case None => None
  }

  predicate Taken(bindings: seq<Keybind>, keys: Combination) {
    exists b :: b in bindings && b.keys == keys
  }

  ghost predicate RegistryOk(bindings: seq<Keybind>) {
    && |bindings| <= MAX_GLOBAL_SHORTCUTS
    && (forall b :: b in bindings ==> b.dispatch.Activated? && b.keys.key.Keysym?)
    && (forall i, j :: 0 <= i < j < |bindings| ==>
          bindings[i].keys != bindings[j].keys && bindings[i].dispatch != bindings[j].dispatch)
  }

  class Registry {
    var bindings: seq<Keybind>

    ghost predicate Valid()
      reads this
    {
      RegistryOk(bindings)
    }

    constructor ()
      ensures Valid() && bindings == []
    {
      bindings := [];
    }


    method RegisterGlobal(id: Identity, trigger: Option<Combination>) returns (r: Result)
      requires Valid() && TriggerOk(trigger)
      modifies this
      ensures Valid()
      ensures r.Ok? <==> id.app != "" && id.shortcut != "" && Registered(old(bindings), id).None?
                         && trigger.Some? && !Taken(old(bindings), trigger.value)
                         && |old(bindings)| < MAX_GLOBAL_SHORTCUTS
      ensures bindings == if r.Ok? then old(bindings) + [Keybind(trigger.value, Activated(id))] else old(bindings)
    {
      if id.app == "" || id.shortcut == "" {
        return Err(EmptyId);
      }
      if Registered(bindings, id).Some? {
        return Err(Duplicate);
      }
      if trigger.None? {
        return Err(BadTrigger);
      }
      if Taken(bindings, trigger.value) {
        return Err(TriggerTaken);
      }
      if |bindings| >= MAX_GLOBAL_SHORTCUTS {
        return Err(LimitReached);
      }
      bindings := bindings + [Keybind(trigger.value, Activated(id))];
      r := Ok;
    }

    // A replacement keeps the shortcut's place, and fails without a trace.
    method ReplaceGlobal(configured: seq<Keybind>, id: Identity, trigger: Option<Combination>) returns (r: Result)
      requires Valid() && TriggerOk(trigger)
      modifies this
      ensures Valid()
      ensures r.Ok? <==> Registered(old(bindings), id).Some? && trigger.Some? && !ReservedChord(trigger.value)
                         && !Taken(configured, trigger.value)
                         && forall b :: b in old(bindings) && b.dispatch != Activated(id) ==> b.keys != trigger.value
      ensures !r.Ok? ==> bindings == old(bindings)
      ensures r.Ok? ==>
              bindings == old(bindings)[Registered(old(bindings), id).value := Keybind(trigger.value, Activated(id))]
    {
      var index := Registered(bindings, id);
      if index.None? {
        return Err(NotRegistered);
      }
      if trigger.None? {
        return Err(BadTrigger);
      }
      var others := exists i :: 0 <= i < |bindings| && i != index.value && bindings[i].keys == trigger.value;
      if ReservedChord(trigger.value) || Taken(configured, trigger.value) || others {
        return Err(Conflict);
      }
      bindings := bindings[index.value := bindings[index.value].(keys := trigger.value)];
      r := Ok;
    }

    method UnregisterGlobal(id: Identity) returns (removed: bool)
      requires Valid()
      modifies this
      ensures Valid()
      ensures removed == Registered(old(bindings), id).Some?
      ensures Registered(bindings, id).None?
      ensures bindings == if removed then Without(old(bindings), Registered(old(bindings), id).value) else old(bindings)
    {
      var kept := [];
      ghost var at := Registered(bindings, id);
      for i := 0 to |bindings|
        invariant at.None? || i <= at.value ==> kept == bindings[..i]
        invariant at.Some? && at.value < i ==> kept == bindings[..at.value] + bindings[at.value + 1..i]
      {
        if bindings[i].dispatch != Activated(id) {
          kept := kept + [bindings[i]];
        }
      }
      if at.Some? {
        WithoutOk(bindings, at.value);
      }
      assert bindings[..|bindings|] == bindings;
      removed := |kept| != |bindings|;
      bindings := kept;
    }
  }

  function Without(bindings: seq<Keybind>, k: nat): seq<Keybind>
    requires k < |bindings|
  {
    bindings[..k] + bindings[k + 1..]
  }

  lemma WithoutOk(bindings: seq<Keybind>, k: nat)
    requires RegistryOk(bindings) && k < |bindings|
    ensures RegistryOk(Without(bindings, k))
    ensures forall b :: b in Without(bindings, k) ==> b in bindings && b.dispatch != bindings[k].dispatch
  {
    var rest := Without(bindings, k);
    forall i | 0 <= i < |rest| ensures rest[i] == bindings[if i < k then i else i + 1] {
    }
  }

  // With a sound registry, the global shortcut that answers a press is the
  // only one that could.
  lemma AtMostOneShortcut(bindings: seq<Keybind>, syms: seq<nat>, mods: Mods, b: Keybind)
    requires RegistryOk(bindings) && |syms| == 1 && syms[0] != KEY_ISO_LEFT_TAB
    requires b in bindings && b.keys.mods == mods && Matches(b.keys.key, syms[0])
    ensures FindBinding(bindings, syms, mods) == Some(b)
  {
    assert Answers(b, syms, mods);
  }

  // The keysym under which an entry also goes.
  predicate Alias(key: BindingKey, sym: nat) {
    Matches(key, sym) && (key.Modifier? || (key == Keysym(KEY_TAB) && sym == KEY_ISO_LEFT_TAB))
  }

  // A listed binding answers the combination's key under another name, or under
  // another keysym that the key yields.
  ghost predicate Shadowed(bindings: seq<Keybind>, keys: Combination, syms: seq<nat>) {
    exists b, i :: b in bindings && b.keys.mods == keys.mods && 0 <= i < |syms| && Matches(b.keys.key, syms[i])
      && (Keysym(syms[i]) != keys.key || Alias(b.keys.key, syms[i]))
  }

  // The key is a session chord.
  predicate Chorded(key: Key, tty: bool) {
    key.mods.ctrl && key.mods.alt
    && (KEY_BACKSPACE in key.syms
        || (tty && (KEY_XF86SWITCH_VT_1 <= key.modified <= KEY_XF86SWITCH_VT_12
                    || exists sym :: sym in key.syms && KEY_F1 <= sym <= KEY_F12)))
  }

  lemma {:induction false} FunctionKeyIn(syms: seq<nat>)
    ensures FirstFunctionKey(syms).Some? <==> exists sym :: sym in syms && KEY_F1 <= sym <= KEY_F12
  {
    if syms != [] {
      FunctionKeyIn(syms[1..]);
      assert syms[0] in syms && forall sym :: sym in syms[1..] ==> sym in syms;
      if sym :| sym in syms && KEY_F1 <= sym <= KEY_F12 {
        assert sym == syms[0] || sym in syms[1..];
      }
    }
  }

  // A press of a key that yields the keysym of a trigger registered without
  // conflict activates the shortcut exactly when the key is no session chord and
  // no other binding shadows the trigger.
  lemma FreeTriggerActivates(s: Filter, bindings: seq<Keybind>, added: Keybind, key: Key, context: Context)
    requires added.keys.key.Keysym? && added.dispatch.Activated?
    requires added.keys.key.sym in key.syms && key.mods == added.keys.mods && key.code !in s.suppressed
    requires !Taken(context.configured, added.keys) && !Taken(bindings, added.keys)
    requires context.globals == bindings + [added]
    requires !context.inhibited && !context.selecting && !context.interacting
    requires forall b :: b in context.configured + bindings ==> b.dispatch != added.dispatch
    ensures Pressed(s, key, context).1 == Intercept(Some(Dispatch(added.dispatch)))
        <==> !Chorded(key, context.tty) && !Shadowed(context.configured + bindings, added.keys, key.syms)
  {
    var syms, mods := key.syms, key.mods;
    var others := context.configured + bindings;
    forall b | b in others && Answers(b, syms, mods) ensures Shadowed(others, added.keys, syms) {
      var i :| 0 <= i < |syms| && Matches(b.keys.key, syms[i]);
      assert b.keys != added.keys;
      assert Keysym(syms[i]) != added.keys.key || Alias(b.keys.key, syms[i]);
    }
    assert Answers(added, syms, mods) by {
      var i :| 0 <= i < |syms| && syms[i] == added.keys.key.sym;
      assert Matches(added.keys.key, syms[i]);
    }
    ShadowedAnswers(others, added.keys, syms);
    FoundLast(bindings, added, syms, mods);
    assert BindingFor(key, context) == Some(added) <==> !Shadowed(others, added.keys, syms);
    ChordedIs(key, context.tty);
  }

  lemma ChordedIs(key: Key, tty: bool)
    ensures SessionChord(key, tty).Some? <==> Chorded(key, tty)
    ensures SessionChord(key, tty).Some? ==>
            SessionChord(key, tty).value.Vt? || SessionChord(key, tty).value == Dispatch(Quit)
  {
    FunctionKeyIn(key.syms);
  }

  lemma ShadowedAnswers(bindings: seq<Keybind>, keys: Combination, syms: seq<nat>)
    ensures Shadowed(bindings, keys, syms) ==> exists b :: b in bindings && Answers(b, syms, keys.mods)
  {
    if Shadowed(bindings, keys, syms) {
      var b, i :| b in bindings && b.keys.mods == keys.mods && 0 <= i < |syms| && Matches(b.keys.key, syms[i])
        && (Keysym(syms[i]) != keys.key || Alias(b.keys.key, syms[i]));
      assert Answers(b, syms, keys.mods);
    }
  }

  // Ctrl, Alt, Shift and Backspace is no reserved chord, can be registered, and quits.
  lemma ChordShadowsTrigger(shortcut: Identity)
    ensures var keys := Combination(Mods(true, true, true, false), Keysym(KEY_BACKSPACE));
            var context := Context(false, false, false, false, [], [Keybind(keys, Activated(shortcut))]);
            && !ReservedChord(keys) && ContextOk(context)
            && Pressed(IDLE, Key(22, true, [KEY_BACKSPACE], KEY_BACKSPACE, keys.mods), context).1
               == Intercept(Some(Dispatch(Quit)))
  {
    assert [KEY_BACKSPACE][0] == KEY_BACKSPACE;
  }

  lemma FoundLast(bindings: seq<Keybind>, added: Keybind, syms: seq<nat>, mods: Mods)
    requires Answers(added, syms, mods)
    requires forall b :: b in bindings && Answers(b, syms, mods) ==> b != added
    ensures FindBinding(bindings + [added], syms, mods) == Some(added)
        <==> forall b :: b in bindings ==> !Answers(b, syms, mods)
  {
    var all := bindings + [added];
    assert all[|bindings|] == added;
    if b :| b in bindings && Answers(b, syms, mods) {
      var i :| 0 <= i < |bindings| && bindings[i] == b;
      assert all[i] == b;
    }
  }
}
