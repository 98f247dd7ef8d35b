/**
 * The example application of examples/base.rs: its menu (a button, a two-entry radio group,
 * a button and a submenu), its menu state (the tree and a u32 revision counter), its click
 * handler that keeps the radio group exclusive, and the tray it composes in `main`.
 */
module BaseExample {
  import opened Capability
  import opened EventTypes
  import opened MenuModel
  import StatusNotifier
  import DBusMenu
  import Tray

  /** The example's application messages; `Toggled` carries an `i32`. */
  datatype Message = Clicked | Toggled(n: Int32)

  /** The revision counter is a `u32`. */
  const U32Limit: int := 0x1_0000_0000

  /** A `u32` value, such as the click timestamp. */
  type U32 = x: int | 0 <= x < U32Limit

  // ------------------------------------------------------- the radio-exclusivity click step

  /** What the click handler does to one entry of a radio group's selections. */
  function ClickSelection<M(==)>(u: MenuUnit<M>, forwardMessage: M): (r: MenuUnit<M>)
    ensures u.RadioButton? ==>
              && r.RadioButton? && r.message == u.message
              && r.options.toggleState == (if u.message == forwardMessage then Selected else UnSelected)
              && r.options.(toggleState := u.options.toggleState) == u.options
    ensures !u.RadioButton? ==> r == u
  {
    match u
    case RadioButton(options, message) =>
      var o := options.(toggleState := UnSelected);
      RadioButton(if forwardMessage == message then o.(toggleState := Selected) else o, message)
    case _ => u
  }

  /** What the click handler does to all of a radio group's selections. */
  function ClickSelections<M(==)>(s: seq<MenuUnit<M>>, forwardMessage: M): (r: seq<MenuUnit<M>>)
    ensures |r| == |s|
    ensures forall k :: 0 <= k < |s| ==> r[k] == ClickSelection(s[k], forwardMessage)
  {
    if s == [] then [] else [ClickSelection(s[0], forwardMessage)] + ClickSelections(s[1..], forwardMessage)
  }

  predicate IsSelected<M>(u: MenuUnit<M>) {
    u.RadioButton? && u.options.toggleState == Selected
  }

  /** The number of selected radio buttons among `s`. */
  function SelectedCount<M>(s: seq<MenuUnit<M>>): (n: nat)
    ensures n <= |s|
    ensures n == 0 <== (forall k :: 0 <= k < |s| ==> !IsSelected(s[k]))
  {
    if s == [] then 0 else (if IsSelected(s[0]) then 1 else 0) + SelectedCount(s[1..])
  }

  /** Some radio button of `s` carries `message`. */
  ghost predicate HasRadioMessage<M>(s: seq<MenuUnit<M>>, message: M) {
    exists k :: 0 <= k < |s| && s[k].RadioButton? && s[k].message == message
  }

  /** No two radio buttons of `s` carry the same message. */
  ghost predicate UniqueRadioMessages<M>(s: seq<MenuUnit<M>>) {
    forall i, j :: 0 <= i < j < |s| && s[i].RadioButton? && s[j].RadioButton? ==> s[i].message != s[j].message
  }

  /** A click whose message no entry carries leaves nothing selected. */
  lemma {:induction false} ClickWithForeignMessageSelectsNone<M>(s: seq<MenuUnit<M>>, forwardMessage: M)
    requires !HasRadioMessage(s, forwardMessage)
    ensures SelectedCount(ClickSelections(s, forwardMessage)) == 0
  {
    if s != [] {
      var r := ClickSelections(s, forwardMessage);
      assert r[1..] == ClickSelections(s[1..], forwardMessage);
      assert !HasRadioMessage(s[1..], forwardMessage) by {
        forall k | 0 <= k < |s[1..]| ensures !(s[1..][k].RadioButton? && s[1..][k].message == forwardMessage) {
          assert s[1..][k] == s[k + 1];
        }
      }
      ClickWithForeignMessageSelectsNone(s[1..], forwardMessage);
    }
  }

  /** A click changes no entry's kind or message, so the messages of a group stay distinct and
      the same messages stay on offer: exclusivity holds for every further click as well. */
  lemma ClickKeepsMessages<M>(s: seq<MenuUnit<M>>, forwardMessage: M, x: M)
    ensures UniqueRadioMessages(s) ==> UniqueRadioMessages(ClickSelections(s, forwardMessage))
    ensures HasRadioMessage(ClickSelections(s, forwardMessage), x) <==> HasRadioMessage(s, x)
  {
  }

  /** Radio exclusivity: when the messages of a group are distinct and the click carries one
      of them, exactly one entry is selected afterwards. */
  lemma {:induction false} ClickSelectsExactlyOne<M>(s: seq<MenuUnit<M>>, forwardMessage: M)
    requires UniqueRadioMessages(s)
    requires HasRadioMessage(s, forwardMessage)
    ensures SelectedCount(ClickSelections(s, forwardMessage)) == 1
  {
    var r := ClickSelections(s, forwardMessage);
    assert r[1..] == ClickSelections(s[1..], forwardMessage);
    var t := s[1..];
    assert forall k :: 0 <= k < |t| ==> t[k] == s[k + 1];
    if s[0].RadioButton? && s[0].message == forwardMessage {
      assert !HasRadioMessage(t, forwardMessage);
      ClickWithForeignMessageSelectsNone(t, forwardMessage);
    } else {
      assert UniqueRadioMessages(t);
      var k :| 0 <= k < |s| && s[k].RadioButton? && s[k].message == forwardMessage;
      assert t[k - 1].RadioButton? && t[k - 1].message == forwardMessage;
      ClickSelectsExactlyOne(t, forwardMessage);
    }
  }

  // ---------------------------------------------------------------------- the example menu

  const HelloButton: MenuUnit<Message> := Button(ButtonOptions("Hello", true, "nheko"), Clicked)
  const WorldButton: MenuUnit<Message> := Button(ButtonOptions("World", true, "fcitx_pinyin"), Clicked)
  const GoodButton: MenuUnit<Message> := Button(ButtonOptions("Good", true, "wezterm"), Clicked)

  /** The radio group's entries, in the order they are appended. */
  const InitialSelections: seq<MenuUnit<Message>> := [
    RadioButton(RadioOptions("abc", true, Checkmark, Selected), Toggled(1)),
    RadioButton(RadioOptions("efg", true, Checkmark, UnSelected), Toggled(2))
  ]

  /** The example's radio group starts with exactly one selected entry, "abc", and its two
      messages differ, so every click on one of its entries keeps exactly one selected. */
  lemma InitialGroupIsExclusive(forwardMessage: Message)
    ensures SelectedCount(InitialSelections) == 1
    ensures IsSelected(InitialSelections[0]) && InitialSelections[0].options.labelText == "abc"
    ensures UniqueRadioMessages(InitialSelections)
    ensures forwardMessage == Toggled(1) || forwardMessage == Toggled(2) ==>
              SelectedCount(ClickSelections(InitialSelections, forwardMessage)) == 1
  {
    assert SelectedCount(InitialSelections[1..]) == 0;
    if forwardMessage == Toggled(1) || forwardMessage == Toggled(2) {
      var k := if forwardMessage == Toggled(1) then 0 else 1;
      assert InitialSelections[k].message == forwardMessage;
      ClickSelectsExactlyOne(InitialSelections, forwardMessage);
    }
  }

  /** The menu state of the example. */
  class Menu {
    var menu: MenuTree<Message>
    var revision: int

    /** The revision is a `u32`. */
    predicate Valid()
      reads this
    {
      0 <= revision < U32Limit
    }

    /** `Menu::boot`: the example menu at revision 0. */
    constructor Boot()
      ensures Valid() && menu == MakeMenu() && revision == 0
    {
      menu := MakeMenu();
      revision := 0;
    }

    /** `Menu::revision`: the stored counter. */
    function Revision(): (r: int)
      reads this
      requires Valid()
      ensures r == revision && 0 <= r < U32Limit
    {
      revision
    }

    /** `Menu::menu`: Hello, the radio group, World, and the submenu "Next" holding "Good". */
    static function MakeMenu(): (t: MenuTree<Message>)
      ensures |t.units| == 4
      ensures t.units[0].Button? && t.units[0].button.labelText == "Hello"
      ensures t.units[1].RadioGroup? && SelectedCount(t.units[1].selections) == 1
      ensures t.units[1].selections == InitialSelections
      ensures t.units[2].Button? && t.units[2].button.labelText == "World"
      ensures t.units[3].SubMenu? && t.units[3].labelText == "Next"
      ensures |t.units[3].children| == 1 && t.units[3].children[0].Button? && t.units[3].children[0].button.labelText == "Good"
    {
      InitialGroupIsExclusive(Clicked);
      MenuTree([HelloButton, RadioGroup(InitialSelections), WorldButton, SubMenu("Next", [GoodButton])])
    }

    /** `Menu::status`: the menu is always in the normal state. */
    function Status(): (s: MenuStatus)
      ensures s == Normal
    {
      Normal
    }

    /**
     * `Menu::on_clicked`. A click on a radio group deselects each radio button of its
     * selections and selects those whose message is the forwarded one, in place; then it
     * counts one more revision (wrapping at 2^32, as `+=` on a `u32` does in a release build)
     * and asks for the clicked entry's parent to be re-announced. Any other entry is left as
     * it is and nothing is announced.
     */
    method OnClicked(button: ClickedUnit<Message>, forwardMessage: Message, timestamp: U32) returns (update: EventUpdate)
      requires Valid() && button.Valid()
      modifies this`revision, button.Footprint()
      ensures Valid() && menu == old(menu)
      ensures button.Group? ==>
                && button.selections[..] == ClickSelections(old(button.selections[..]), forwardMessage)
                && update == UpdateCurrent
                && revision == (old(revision) + 1) % U32Limit
      ensures button.Group? && old(revision) + 1 < U32Limit ==> revision == old(revision) + 1
      ensures button.Single? ==> update == EventUpdate.None && revision == old(revision)
    {
      if button.Group? {
        var a := button.selections;
        var i := 0;
        while i < a.Length
          invariant 0 <= i <= a.Length
          invariant forall k :: 0 <= k < i ==> a[k] == ClickSelection(old(a[k]), forwardMessage)
          invariant forall k :: i <= k < a.Length ==> a[k] == old(a[k])
          invariant revision == old(revision)
        {
          match a[i] {
            case RadioButton(options, message) =>
              var o := options.(toggleState := UnSelected);
              if forwardMessage == message {
                o := o.(toggleState := Selected);
              }
              a[i] := RadioButton(o, message);
            case _ =>
          }
          i := i + 1;
        }
        revision := (revision + 1) % U32Limit;
        return UpdateCurrent;
      }
      return EventUpdate.None;
    }
  }

  // ------------------------------------------------------------------ the tray `main` builds

  /** The functions and values `main` hands to `tray()` and to the builder, in call order. */
  datatype MainArgs = MainArgs(
    baseBoot: HandlerId, id: HandlerId, title: HandlerId,
    menuBoot: HandlerId, menu: HandlerId, revision: HandlerId,
    itemIsMenu: HandlerId, iconName: HandlerId, activate: HandlerId, category: HandlerId,
    textDirection: HandlerId, contextMenu: HandlerId, scroll: HandlerId,
    secondaryActivate: HandlerId, menuStatus: HandlerId, onClicked: HandlerId)

  /** The first three status-icon steps of `main`, around `tray()`'s base object. */
  function MainNotifierInner(a: MainArgs): (n: StatusNotifier.Program)
    ensures StatusNotifier.Root(n) == StatusNotifier.Instance(a.baseBoot, a.id, a.title)
    ensures StatusNotifier.Handlers(n) == {a.activate, a.iconName, a.itemIsMenu}
  {
    var n0 := StatusNotifier.Instance(a.baseBoot, a.id, a.title);
    var n1 := StatusNotifier.Wrapped(StatusNotifier.WithItemIsMenu, a.itemIsMenu, n0);
    var n2 := StatusNotifier.Wrapped(StatusNotifier.WithIconName, a.iconName, n1);
    assert StatusNotifier.Root(n1) == n0 && StatusNotifier.Handlers(n1) == {a.itemIsMenu};
    StatusNotifier.Wrapped(StatusNotifier.WithActive, a.activate, n2)
  }

  /** All seven status-icon steps of `main`, outermost first. */
  function MainNotifier(a: MainArgs): (n: StatusNotifier.Program)
    ensures StatusNotifier.Root(n) == StatusNotifier.Instance(a.baseBoot, a.id, a.title)
    ensures StatusNotifier.Handlers(n) == {a.secondaryActivate, a.scroll, a.contextMenu, a.category,
                                           a.activate, a.iconName, a.itemIsMenu}
  {
    var n4 := StatusNotifier.Wrapped(StatusNotifier.WithCategory, a.category, MainNotifierInner(a));
    var n5 := StatusNotifier.Wrapped(StatusNotifier.WithContextMenu, a.contextMenu, n4);
    var n6 := StatusNotifier.Wrapped(StatusNotifier.WithScroll, a.scroll, n5);
    assert StatusNotifier.Root(n4) == StatusNotifier.Root(MainNotifierInner(a));
    assert StatusNotifier.Handlers(n4) == {a.category} + StatusNotifier.Handlers(MainNotifierInner(a));
    assert StatusNotifier.Root(n6) == StatusNotifier.Root(n4);
    assert StatusNotifier.Handlers(n6) == {a.scroll, a.contextMenu} + StatusNotifier.Handlers(n4);
    StatusNotifier.Wrapped(StatusNotifier.WithSecondaryActive, a.secondaryActivate, n6)
  }

  /** The three menu steps of `main`, outermost first. */
  function MainMenu(a: MainArgs): (n: DBusMenu.Program)
    ensures DBusMenu.Root(n) == DBusMenu.MenuInstance(a.menuBoot, a.menu, a.revision)
    ensures DBusMenu.Handlers(n) == {a.onClicked, a.menuStatus, a.textDirection}
  {
    var n0 := DBusMenu.MenuInstance(a.menuBoot, a.menu, a.revision);
    var n1 := DBusMenu.Wrapped(DBusMenu.WithTextDirection, a.textDirection, n0);
    var n2 := DBusMenu.Wrapped(DBusMenu.WithMenuStatus, a.menuStatus, n1);
    assert DBusMenu.Root(n1) == n0 && DBusMenu.Handlers(n1) == {a.textDirection};
    DBusMenu.Wrapped(DBusMenu.WithOnClicked, a.onClicked, n2)
  }

  /** The composition chain of `main`: the base tray, then ten builder steps interleaving the
      two sides. Each side ends up wrapped in its own steps, in call order. */
  function MainTray(a: MainArgs): (t: Tray.Tray)
    ensures t.notifierRaw == MainNotifier(a) && t.menuRaw == MainMenu(a)
  {
    var t0 := Tray.NewTray(a.baseBoot, a.id, a.title, a.menuBoot, a.menu, a.revision);
    var t1 := Tray.WithNotifier(t0, StatusNotifier.WithItemIsMenu, a.itemIsMenu);
    var t2 := Tray.WithNotifier(t1, StatusNotifier.WithIconName, a.iconName);
    var t3 := Tray.WithNotifier(t2, StatusNotifier.WithActive, a.activate);
    var t4 := Tray.WithNotifier(t3, StatusNotifier.WithCategory, a.category);
    var t5 := Tray.WithMenu(t4, DBusMenu.WithTextDirection, a.textDirection);
    var t6 := Tray.WithNotifier(t5, StatusNotifier.WithContextMenu, a.contextMenu);
    var t7 := Tray.WithNotifier(t6, StatusNotifier.WithScroll, a.scroll);
    var t8 := Tray.WithNotifier(t7, StatusNotifier.WithSecondaryActive, a.secondaryActivate);
    var t9 := Tray.WithMenu(t8, DBusMenu.WithMenuStatus, a.menuStatus);
    Tray.WithMenu(t9, DBusMenu.WithOnClicked, a.onClicked)
  }

  /** The four status-icon steps after `with_activate` pass every other method inwards. */
  lemma OuterNotifierStepsTransparent(a: MainArgs, m: StatusNotifier.Method)
    requires m != StatusNotifier.Category && m != StatusNotifier.ContextMenu
    requires m != StatusNotifier.Scroll && m != StatusNotifier.SecondaryActivate
    ensures StatusNotifier.Answer(MainNotifier(a), m) == StatusNotifier.Answer(MainNotifierInner(a), m)
  {
    var n4 := StatusNotifier.Wrapped(StatusNotifier.WithCategory, a.category, MainNotifierInner(a));
    var n5 := StatusNotifier.Wrapped(StatusNotifier.WithContextMenu, a.contextMenu, n4);
    var n6 := StatusNotifier.Wrapped(StatusNotifier.WithScroll, a.scroll, n5);
    StatusNotifier.Transparent(StatusNotifier.WithSecondaryActive, a.secondaryActivate, n6, m);
    StatusNotifier.Transparent(StatusNotifier.WithScroll, a.scroll, n5, m);
    StatusNotifier.Transparent(StatusNotifier.WithContextMenu, a.contextMenu, n4, m);
    StatusNotifier.Transparent(StatusNotifier.WithCategory, a.category, MainNotifierInner(a), m);
  }

  /** The first three status-icon steps of `main` pass every other method inwards. */
  lemma InnerNotifierStepsTransparent(a: MainArgs, m: StatusNotifier.Method)
    requires m != StatusNotifier.ItemIsMenu && m != StatusNotifier.IconName && m != StatusNotifier.Activate
    ensures StatusNotifier.Answer(MainNotifierInner(a), m)
         == StatusNotifier.Answer(StatusNotifier.Instance(a.baseBoot, a.id, a.title), m)
  {
    var n0 := StatusNotifier.Instance(a.baseBoot, a.id, a.title);
    var n1 := StatusNotifier.Wrapped(StatusNotifier.WithItemIsMenu, a.itemIsMenu, n0);
    var n2 := StatusNotifier.Wrapped(StatusNotifier.WithIconName, a.iconName, n1);
    StatusNotifier.Transparent(StatusNotifier.WithActive, a.activate, n2, m);
    StatusNotifier.Transparent(StatusNotifier.WithIconName, a.iconName, n1, m);
    StatusNotifier.Transparent(StatusNotifier.WithItemIsMenu, a.itemIsMenu, n0, m);
  }

  /** The identity, the title and the boot function of the example's icon are the ones `main`
      hands to `tray()`. */
  lemma MainNotifierMandatory(a: MainArgs)
    ensures StatusNotifier.Answer(MainNotifier(a), StatusNotifier.Id) == BaseArg(a.id)
    ensures StatusNotifier.Answer(MainNotifier(a), StatusNotifier.Title) == BaseArg(a.title)
    ensures StatusNotifier.Answer(MainNotifier(a), StatusNotifier.Boot) == BaseArg(a.baseBoot)
  {
    OuterNotifierStepsTransparent(a, StatusNotifier.Id);
    OuterNotifierStepsTransparent(a, StatusNotifier.Title);
    OuterNotifierStepsTransparent(a, StatusNotifier.Boot);
    InnerNotifierStepsTransparent(a, StatusNotifier.Id);
    InnerNotifierStepsTransparent(a, StatusNotifier.Title);
    InnerNotifierStepsTransparent(a, StatusNotifier.Boot);
  }

  /** Activation is answered by the function handed to `with_activate`, although four further
      steps wrap it. */
  lemma MainNotifierActivate(a: MainArgs)
    ensures StatusNotifier.Answer(MainNotifier(a), StatusNotifier.Activate) == Handler(a.activate, false)
  {
    OuterNotifierStepsTransparent(a, StatusNotifier.Activate);
  }

  /** Scrolling is answered by the function handed to `with_scroll`, although
      `with_secondary_activate` wraps it. */
  lemma MainNotifierScroll(a: MainArgs)
    ensures StatusNotifier.Answer(MainNotifier(a), StatusNotifier.Scroll) == Handler(a.scroll, false)
  {
  }

  /** No step of `main` supplies an attention icon name and none redirects it, so it falls
      through every wrapper to the trait default. */
  lemma MainNotifierAttentionIcon(a: MainArgs)
    ensures StatusNotifier.Answer(MainNotifier(a), StatusNotifier.AttentionIconName)
         == TraitDefault(StatusNotifier.AttentionIconName)
  {
    OuterNotifierStepsTransparent(a, StatusNotifier.AttentionIconName);
    InnerNotifierStepsTransparent(a, StatusNotifier.AttentionIconName);
  }

  /** The three menu steps of `main` pass every other method inwards. */
  lemma MenuStepsTransparent(a: MainArgs, m: DBusMenu.Method)
    requires m != DBusMenu.OnClicked && m != DBusMenu.Status && m != DBusMenu.TextDirection
    ensures DBusMenu.Answer(MainMenu(a), m) == DBusMenu.Answer(DBusMenu.MenuInstance(a.menuBoot, a.menu, a.revision), m)
  {
    var n0 := DBusMenu.MenuInstance(a.menuBoot, a.menu, a.revision);
    var n1 := DBusMenu.Wrapped(DBusMenu.WithTextDirection, a.textDirection, n0);
    var n2 := DBusMenu.Wrapped(DBusMenu.WithMenuStatus, a.menuStatus, n1);
    DBusMenu.Transparent(DBusMenu.WithOnClicked, a.onClicked, n2, m);
    DBusMenu.Transparent(DBusMenu.WithMenuStatus, a.menuStatus, n1, m);
    DBusMenu.Transparent(DBusMenu.WithTextDirection, a.textDirection, n0, m);
  }

  /** On the menu side, the right-to-left text direction survives because `with_on_toggled` is
      never applied, toggles keep the trait default, status and clicks come from the functions
      handed over, and the revision from `tray()`'s argument. */
  lemma MainMenuAnswers(a: MainArgs)
    ensures DBusMenu.Answer(MainMenu(a), DBusMenu.TextDirection) == Handler(a.textDirection, false)
    ensures DBusMenu.Answer(MainMenu(a), DBusMenu.Status) == Handler(a.menuStatus, true)
    ensures DBusMenu.Answer(MainMenu(a), DBusMenu.OnClicked) == Handler(a.onClicked, false)
    ensures DBusMenu.Answer(MainMenu(a), DBusMenu.OnToggled) == TraitDefault(DBusMenu.OnToggled)
    ensures DBusMenu.Answer(MainMenu(a), DBusMenu.Revision) == BaseArg(a.revision)
  {
    var n1 := DBusMenu.Wrapped(DBusMenu.WithTextDirection, a.textDirection, DBusMenu.MenuInstance(a.menuBoot, a.menu, a.revision));
    var n2 := DBusMenu.Wrapped(DBusMenu.WithMenuStatus, a.menuStatus, n1);
    DBusMenu.Transparent(DBusMenu.WithOnClicked, a.onClicked, n2, DBusMenu.TextDirection);
    DBusMenu.Transparent(DBusMenu.WithMenuStatus, a.menuStatus, n1, DBusMenu.TextDirection);
    MenuStepsTransparent(a, DBusMenu.OnToggled);
    MenuStepsTransparent(a, DBusMenu.Revision);
  }
}
