/**
 * The input bus (src/game/input_bus.cpp): tables relating logical actions to
 * keyboard scancodes and mouse buttons, and a list of observers notified on
 * every mapped key-down or button-down event.
 *
 * Observer callbacks are identified by their subscription handle; a dispatch
 * returns the calls it makes, in order, for the owner of each handle to run.
 * The keyboard and mouse state SDL reports are inputs of `IsActionPressed`.
 */
module Input {
  import opened Wrappers
  import opened CppInt

  /** `SDL_NUM_SCANCODES`. */
  const NUM_SCANCODES: int := 512
  /** Length of the button table: SDL numbers its buttons 1 to 5. */
  const MOUSE_BUTTON_COUNT: int := 6

  type Scancode = n: int | 0 <= n < NUM_SCANCODES
  type Button = Uint8

  datatype Action =
    | NoAction
    | PlayerOneUp | PlayerOneDown | PlayerTwoUp | PlayerTwoDown
    | Confirm | Cancel | Pause | Quit

  datatype InputType = Keyboard | Mouse

  /** One entry of a configuration: the input that triggers an action. */
  datatype Description = KeyDown(scancode: Scancode) | ButtonDown(button: Button)

  /** `std::out_of_range`, thrown by `unordered_map::at` on a missing key. */
  datatype InputError = OutOfRange

  /** A subscription handle: the position of a callback in the observer list. */
  type Subscription = nat

  /** One call `observer(action)`. */
  datatype Notification = Notification(observer: Subscription, action: Action)

  function TypeOf(d: Description): InputType
  {
    match d
    case KeyDown(_) => Keyboard
    case ButtonDown(_) => Mouse
  }

  /** The action-to-type table a configuration produces. */
  function TypesOf(m: map<Action, Description>): map<Action, InputType>
  {
    map a | a in m :: TypeOf(m[a])
  }

  /** The action-to-scancode table a configuration produces. */
  function ScancodesOf(m: map<Action, Description>): map<Action, Scancode>
  {
    map a | a in m && m[a].KeyDown? :: m[a].scancode
  }

  /** The action-to-button table a configuration produces. */
  function ButtonsOf(m: map<Action, Description>): map<Action, Button>
  {
    map a | a in m && m[a].ButtonDown? :: m[a].button
  }

  /** The actions a configuration binds to input `d`. */
  function BoundTo(m: map<Action, Description>, d: Description): set<Action>
  {
    set a | a in m && m[a] == d
  }

  /**
   * A reverse-table slot after loading a configuration: untouched when no
   * action is bound to its input, otherwise holding one of the bound actions.
   */
  predicate Refilled(before: Action, bound: set<Action>, after: Action)
  {
    if bound == {} then after == before else after in bound
  }

  /** Loading one more entry adds exactly that entry's contribution to each table. */
  lemma TablesGrow(done: map<Action, Description>, action: Action, d: Description)
    requires action !in done
    ensures TypesOf(done[action := d]) == TypesOf(done)[action := TypeOf(d)]
    ensures d.KeyDown? ==> ScancodesOf(done[action := d]) == ScancodesOf(done)[action := d.scancode]
    ensures d.ButtonDown? ==> ScancodesOf(done[action := d]) == ScancodesOf(done)
    ensures d.ButtonDown? ==> ButtonsOf(done[action := d]) == ButtonsOf(done)[action := d.button]
    ensures d.KeyDown? ==> ButtonsOf(done[action := d]) == ButtonsOf(done)
    ensures BoundTo(done[action := d], d) == BoundTo(done, d) + {action}
    ensures forall e :: e != d ==> BoundTo(done[action := d], e) == BoundTo(done, e)
  {
  }

  /** The same growth, seen through tables that already held entries before loading. */
  lemma {:induction false} LoadedTablesGrow(
    types: map<Action, InputType>, scancodes: map<Action, Scancode>, buttons: map<Action, Button>,
    done: map<Action, Description>, action: Action, d: Description)
    requires action !in done
    ensures (types + TypesOf(done))[action := TypeOf(d)] == types + TypesOf(done[action := d])
    ensures d.KeyDown? ==> (scancodes + ScancodesOf(done))[action := d.scancode]
                           == scancodes + ScancodesOf(done[action := d])
    ensures d.ButtonDown? ==> scancodes + ScancodesOf(done) == scancodes + ScancodesOf(done[action := d])
    ensures d.ButtonDown? ==> (buttons + ButtonsOf(done))[action := d.button]
                              == buttons + ButtonsOf(done[action := d])
    ensures d.KeyDown? ==> buttons + ButtonsOf(done) == buttons + ButtonsOf(done[action := d])
  {
    TablesGrow(done, action, d);
    UnionUpdate(types, TypesOf(done), action, TypeOf(d));
    match d {
      case KeyDown(scancode) => UnionUpdate(scancodes, ScancodesOf(done), action, scancode);
      case ButtonDown(button) => UnionUpdate(buttons, ButtonsOf(done), action, button);
    }
  }

  /** Overwriting a key of a union is overwriting it in the right operand. */
  lemma UnionUpdate<V>(base: map<Action, V>, part: map<Action, V>, k: Action, v: V)
    ensures (base + part)[k := v] == base + part[k := v]
  {
  }

  /** A table emptied before loading ends up holding the configuration's contribution alone. */
  lemma TablesOfEmptyStart(m: map<Action, Description>)
    ensures map[] + TypesOf(m) == TypesOf(m)
    ensures map[] + ScancodesOf(m) == ScancodesOf(m)
    ensures map[] + ButtonsOf(m) == ButtonsOf(m)
  {
  }

  /** A slot table reset to `none` everywhere. */
  lemma AllNoAction(s: seq<Action>)
    requires forall i :: 0 <= i < |s| ==> s[i] == NoAction
    ensures s == seq(|s|, _ => NoAction)
  {
  }

  /** Every scancode slot is `Refilled` from `before` by the configuration `m`. */
  predicate KeySlotsRefilled(before: seq<Action>, m: map<Action, Description>, after: seq<Action>)
  {
    && |before| == |after| == NUM_SCANCODES
    && forall sc: Scancode :: Refilled(before[sc], BoundTo(m, KeyDown(sc)), after[sc])
  }

  /** Every button slot is `Refilled` from `before` by the configuration `m`. */
  predicate ButtonSlotsRefilled(before: seq<Action>, m: map<Action, Description>, after: seq<Action>)
  {
    && |before| == |after| == MOUSE_BUTTON_COUNT
    && forall b: Button :: b < MOUSE_BUTTON_COUNT ==>
         Refilled(before[b], BoundTo(m, ButtonDown(b)), after[b])
  }

  /** Loading one entry keeps both slot relations, writing its action into its own slot. */
  lemma {:induction false} SlotsStep(
    keysBefore: seq<Action>, buttonsBefore: seq<Action>, done: map<Action, Description>,
    keys: seq<Action>, buttons: seq<Action>, action: Action, d: Description)
    requires action !in done
    requires KeySlotsRefilled(keysBefore, done, keys)
    requires ButtonSlotsRefilled(buttonsBefore, done, buttons)
    requires d.ButtonDown? ==> d.button < MOUSE_BUTTON_COUNT
    ensures d.KeyDown? ==> KeySlotsRefilled(keysBefore, done[action := d], keys[d.scancode := action])
    ensures d.KeyDown? ==> ButtonSlotsRefilled(buttonsBefore, done[action := d], buttons)
    ensures d.ButtonDown? ==> KeySlotsRefilled(keysBefore, done[action := d], keys)
    ensures d.ButtonDown? ==> ButtonSlotsRefilled(buttonsBefore, done[action := d], buttons[d.button := action])
  {
    TablesGrow(done, action, d);
  }

  /** No two actions share an input. */
  predicate DistinctInputs(m: map<Action, Description>)
  {
    forall a, b :: a in m && b in m && a != b ==> m[a] != m[b]
  }

  /** With distinct inputs, each configured input is bound to exactly its own action. */
  lemma DistinctInputsMapBack(m: map<Action, Description>, a: Action)
    requires DistinctInputs(m) && a in m
    ensures BoundTo(m, m[a]) == {a}
  {
  }

  /**
   * After loading a configuration with distinct inputs, every configured key
   * dispatches to exactly the action configured for it.
   */
  lemma {:induction false} ConfiguredKeyDispatches(
    before: seq<Action>, m: map<Action, Description>, after: seq<Action>, a: Action)
    requires KeySlotsRefilled(before, m, after) && DistinctInputs(m)
    requires a in m && m[a].KeyDown?
    ensures after[m[a].scancode] == a
  {
    DistinctInputsMapBack(m, a);
  }

  /** Every call of a dispatch goes to the observer at the same position, with `action`. */
  predicate NotifiesAll(calls: seq<Notification>, observers: seq<Subscription>, action: Action)
  {
    && |calls| == |observers|
    && forall i :: 0 <= i < |calls| ==> calls[i] == Notification(observers[i], action)
  }

  /** Position of a handle in the observer list. */
  function IndexOf(s: seq<Subscription>, x: Subscription): (i: nat)
    requires x in s
    ensures i < |s| && s[i] == x && x !in s[..i]
  {
    if s[0] == x then 0 else 1 + IndexOf(s[1..], x)
  }

  /** A second setting for the same action replaces the first, whichever kind each is. */
  lemma LaterSettingWins(m: map<Action, Description>, action: Action, first: Description, second: Description)
    ensures m[action := first][action := second] == m[action := second]
    ensures m[action := first][action := second][action] == second
  {
  }

  /** `InputBus::Config`: the action-to-input map being built. */
  class Config {
    var actionMap: map<Action, Description>

    constructor ()
      ensures actionMap == map[]
    {
      actionMap := map[];
    }

    /** `setKeyboardKeyDownAction`: bind `action` to a key, replacing any earlier binding. */
    method SetKeyboardKeyDownAction(scancode: Scancode, action: Action)
      modifies this
      ensures actionMap == old(actionMap)[action := KeyDown(scancode)]
    {
      actionMap := actionMap[action := KeyDown(scancode)];
    }

    /** `setMouseButtonDownAction`: bind `action` to a button, replacing any earlier binding. */
    method SetMouseButtonDownAction(button: Button, action: Action)
      modifies this
      ensures actionMap == old(actionMap)[action := ButtonDown(button)]
    {
      actionMap := actionMap[action := ButtonDown(button)];
    }
  }

  class InputBus {
    var actionToInputType: map<Action, InputType>
    var actionToScancode: map<Action, Scancode>
    var actionToMouseButton: map<Action, Button>
    const scancodeToAction: array<Action>
    const buttonToAction: array<Action>
    var observers: seq<Subscription>
    var nextSubscription: nat

    /**
     * The tables have their fixed sizes, every action with an input type has an
     * entry in the matching table, and subscription handles are distinct.
     */
    ghost predicate Valid()
      reads this
    {
      && scancodeToAction.Length == NUM_SCANCODES
      && buttonToAction.Length == MOUSE_BUTTON_COUNT
      && (forall a :: a in actionToInputType && actionToInputType[a] == Keyboard ==> a in actionToScancode)
      && (forall a :: a in actionToInputType && actionToInputType[a] == Mouse ==> a in actionToMouseButton)
      && (forall i, j :: 0 <= i < j < |observers| ==> observers[i] != observers[j])
      && (forall i :: 0 <= i < |observers| ==> observers[i] < nextSubscription)
    }

    /** The singleton as first created: static storage, so every slot holds `none`. */
    constructor ()
      ensures Valid() && fresh(scancodeToAction) && fresh(buttonToAction)
      ensures actionToInputType == map[] && actionToScancode == map[] && actionToMouseButton == map[]
      ensures forall i :: 0 <= i < scancodeToAction.Length ==> scancodeToAction[i] == NoAction
      ensures forall i :: 0 <= i < buttonToAction.Length ==> buttonToAction[i] == NoAction
      ensures observers == []
    {
      actionToInputType := map[];
      actionToScancode := map[];
      actionToMouseButton := map[];
      scancodeToAction := new Action[NUM_SCANCODES](_ => NoAction);
      buttonToAction := new Action[MOUSE_BUTTON_COUNT](_ => NoAction);
      observers := [];
      nextSubscription := 0;
    }

    /**
     * `InputBus::initialize`: load every entry of the configuration, in the
     * unspecified order of its hash map. Buttons index a six-slot table.
     */
    method Initialize(config: Config)
      requires Valid()
      requires forall a :: a in config.actionMap && config.actionMap[a].ButtonDown? ==>
                 config.actionMap[a].button < MOUSE_BUTTON_COUNT
      modifies this, scancodeToAction, buttonToAction
      ensures Valid()
      ensures observers == old(observers) && nextSubscription == old(nextSubscription)
      ensures actionToInputType == old(actionToInputType) + TypesOf(config.actionMap)
      ensures actionToScancode == old(actionToScancode) + ScancodesOf(config.actionMap)
      ensures actionToMouseButton == old(actionToMouseButton) + ButtonsOf(config.actionMap)
      ensures KeySlotsRefilled(old(scancodeToAction[..]), config.actionMap, scancodeToAction[..])
      ensures ButtonSlotsRefilled(old(buttonToAction[..]), config.actionMap, buttonToAction[..])
    {
      var cfg := config.actionMap;
      var remaining := cfg.Keys;
      ghost var done: map<Action, Description> := map[];
      while remaining != {}
        invariant remaining !! done.Keys && remaining + done.Keys == cfg.Keys
        invariant forall a :: a in done ==> done[a] == cfg[a]
        invariant Valid()
        invariant observers == old(observers) && nextSubscription == old(nextSubscription)
        invariant actionToInputType == old(actionToInputType) + TypesOf(done)
        invariant actionToScancode == old(actionToScancode) + ScancodesOf(done)
        invariant actionToMouseButton == old(actionToMouseButton) + ButtonsOf(done)
        invariant KeySlotsRefilled(old(scancodeToAction[..]), done, scancodeToAction[..])
        invariant ButtonSlotsRefilled(old(buttonToAction[..]), done, buttonToAction[..])
        decreases remaining
      {
        var action :| action in remaining;
        var description := cfg[action];
        LoadedTablesGrow(old(actionToInputType), old(actionToScancode), old(actionToMouseButton),
                         done, action, description);
        SlotsStep(old(scancodeToAction[..]), old(buttonToAction[..]), done,
                  scancodeToAction[..], buttonToAction[..], action, description);
        Load(action, description);
        remaining := remaining - {action};
        done := done[action := description];
      }
      assert done == cfg;
    }

    /** One entry of the configuration: record its input type and fill both directions. */
    method Load(action: Action, description: Description)
      requires Valid()
      requires description.ButtonDown? ==> description.button < MOUSE_BUTTON_COUNT
      modifies this, scancodeToAction, buttonToAction
      ensures Valid()
      ensures observers == old(observers) && nextSubscription == old(nextSubscription)
      ensures actionToInputType == old(actionToInputType)[action := TypeOf(description)]
      ensures description.KeyDown? ==>
                && actionToScancode == old(actionToScancode)[action := description.scancode]
                && actionToMouseButton == old(actionToMouseButton)
                && scancodeToAction[..] == old(scancodeToAction[..])[description.scancode := action]
                && buttonToAction[..] == old(buttonToAction[..])
      ensures description.ButtonDown? ==>
                && actionToScancode == old(actionToScancode)
                && actionToMouseButton == old(actionToMouseButton)[action := description.button]
                && scancodeToAction[..] == old(scancodeToAction[..])
                && buttonToAction[..] == old(buttonToAction[..])[description.button := action]
    {
      actionToInputType := actionToInputType[action := TypeOf(description)];
      match description {
        case KeyDown(scancode) =>
          actionToScancode := actionToScancode[action := scancode];
          scancodeToAction[scancode] := action;
        case ButtonDown(button) =>
          actionToMouseButton := actionToMouseButton[action := button];
          buttonToAction[button] := action;
      }
    }

    /** `InputBus::terminate`: empty the three maps and reset every slot to `none`. */
    method Terminate()
      requires Valid()
      modifies this, scancodeToAction, buttonToAction
      ensures Valid()
      ensures observers == old(observers) && nextSubscription == old(nextSubscription)
      ensures actionToInputType == map[] && actionToScancode == map[] && actionToMouseButton == map[]
      ensures forall i :: 0 <= i < scancodeToAction.Length ==> scancodeToAction[i] == NoAction
      ensures forall i :: 0 <= i < buttonToAction.Length ==> buttonToAction[i] == NoAction
    {
      actionToInputType := map[];
      actionToScancode := map[];
      actionToMouseButton := map[];
      forall i | 0 <= i < scancodeToAction.Length {
        scancodeToAction[i] := NoAction;
      }
      forall i | 0 <= i < buttonToAction.Length {
        buttonToAction[i] := NoAction;
      }
    }

    /** `InputBus::reinitialize`: nothing of an earlier configuration survives. */
    method Reinitialize(config: Config)
      requires Valid()
      requires forall a :: a in config.actionMap && config.actionMap[a].ButtonDown? ==>
                 config.actionMap[a].button < MOUSE_BUTTON_COUNT
      modifies this, scancodeToAction, buttonToAction
      ensures Valid()
      ensures observers == old(observers) && nextSubscription == old(nextSubscription)
      ensures actionToInputType == TypesOf(config.actionMap)
      ensures actionToScancode == ScancodesOf(config.actionMap)
      ensures actionToMouseButton == ButtonsOf(config.actionMap)
      ensures KeySlotsRefilled(seq(NUM_SCANCODES, _ => NoAction), config.actionMap, scancodeToAction[..])
      ensures ButtonSlotsRefilled(seq(MOUSE_BUTTON_COUNT, _ => NoAction), config.actionMap, buttonToAction[..])
    {
      Terminate();
      AllNoAction(scancodeToAction[..]);
      AllNoAction(buttonToAction[..]);
      Initialize(config);
      TablesOfEmptyStart(config.actionMap);
    }

    /** The loop shared by both event handlers: call every observer, in list order. */
    method NotifyObservers(action: Action) returns (calls: seq<Notification>)
      ensures NotifiesAll(calls, observers, action)
    {
      calls := [];
      for i := 0 to |observers|
        invariant |calls| == i
        invariant forall j :: 0 <= j < i ==> calls[j] == Notification(observers[j], action)
      {
        calls := calls + [Notification(observers[i], action)];
      }
    }

    /** `InputBus::handleKeyDownEvent`: an unmapped key notifies nobody. */
    method HandleKeyDownEvent(scancode: Scancode) returns (calls: seq<Notification>)
      requires Valid()
      ensures scancodeToAction[scancode] == NoAction ==> calls == []
      ensures scancodeToAction[scancode] != NoAction ==>
                NotifiesAll(calls, observers, scancodeToAction[scancode])
    {
      var action := scancodeToAction[scancode];
      if action == NoAction {
        return [];
      }
      calls := NotifyObservers(action);
    }

    /** `InputBus::handleMouseButtonDownEvent`: an unmapped button notifies nobody. */
    method HandleMouseButtonDownEvent(button: Button) returns (calls: seq<Notification>)
      requires Valid() && button < MOUSE_BUTTON_COUNT
      ensures buttonToAction[button] == NoAction ==> calls == []
      ensures buttonToAction[button] != NoAction ==>
                NotifiesAll(calls, observers, buttonToAction[button])
    {
      var action := buttonToAction[button];
      if action == NoAction {
        return [];
      }
      calls := NotifyObservers(action);
    }

    /** `InputBus::onActionPressed`: append a new observer at the end of the list. */
    method OnActionPressed() returns (subscription: Subscription)
      requires Valid()
      modifies this
      ensures Valid()
      ensures observers == old(observers) + [subscription]
      ensures subscription !in old(observers)
      ensures actionToInputType == old(actionToInputType) && actionToScancode == old(actionToScancode)
      ensures actionToMouseButton == old(actionToMouseButton)
    {
      subscription := nextSubscription;
      observers := observers + [subscription];
      nextSubscription := nextSubscription + 1;
    }

    /**
     * `InputBus::offActionPressed`: erase exactly that subscription, keeping the
     * others in order. Erasing a handle not in the list is undefined.
     */
    method OffActionPressed(subscription: Subscription)
      requires Valid() && subscription in observers
      modifies this
      ensures Valid()
      ensures var k := IndexOf(old(observers), subscription);
              observers == old(observers)[..k] + old(observers)[k + 1..]
      ensures subscription !in observers
      ensures actionToInputType == old(actionToInputType) && actionToScancode == old(actionToScancode)
      ensures actionToMouseButton == old(actionToMouseButton)
      ensures nextSubscription == old(nextSubscription)
    {
      var k := IndexOf(observers, subscription);
      observers := observers[..k] + observers[k + 1..];
    }

    /**
     * `InputBus::isActionPressed`, given the keyboard state array and the set of
     * held mouse buttons. An action never configured fails in `.at`.
     */
    function IsActionPressed(action: Action, keyboardState: seq<bool>, heldButtons: set<Button>)
      : (r: Result<bool, InputError>)
      requires Valid() && |keyboardState| == NUM_SCANCODES
      reads this
      ensures r.Failure? <==> action !in actionToInputType
      ensures r.Success? && actionToInputType[action] == Keyboard ==>
                r.value == keyboardState[actionToScancode[action]]
      ensures r.Success? && actionToInputType[action] == Mouse ==>
                r.value == (actionToMouseButton[action] in heldButtons)
    {
      if action !in actionToInputType then Failure(OutOfRange)
      else match actionToInputType[action]
        case Keyboard => Success(keyboardState[actionToScancode[action]])
        case Mouse => Success(actionToMouseButton[action] in heldButtons)
    }
  }
}
