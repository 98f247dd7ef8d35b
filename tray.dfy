/**
 * `tray()` and the `Tray::with_<capability>` builder methods (src/tray.rs): a tray pairs a
 * status-icon program with a menu program, and each builder method wraps exactly one of them.
 */
module Tray {
  import opened Capability
  import StatusNotifier
  import DBusMenu

  datatype Tray = Tray(notifierRaw: StatusNotifier.Program, menuRaw: DBusMenu.Program)

  /** `tray(boot, id, title, menu_boot, menu, revision)`: the two base objects. */
  function NewTray(boot: HandlerId, id: HandlerId, title: HandlerId,
                   menuBoot: HandlerId, menu: HandlerId, revision: HandlerId): (t: Tray)
    ensures StatusNotifier.Answer(t.notifierRaw, StatusNotifier.Id) == BaseArg(id)
    ensures StatusNotifier.Answer(t.notifierRaw, StatusNotifier.Boot) == BaseArg(boot)
    ensures StatusNotifier.Answer(t.notifierRaw, StatusNotifier.Title) == BaseArg(title)
    ensures forall m :: m !in StatusNotifier.MandatoryMethods ==>
              StatusNotifier.Answer(t.notifierRaw, m) == TraitDefault(m)
    ensures DBusMenu.Answer(t.menuRaw, DBusMenu.Boot) == BaseArg(menuBoot)
    ensures DBusMenu.Answer(t.menuRaw, DBusMenu.Revision) == BaseArg(revision)
    ensures DBusMenu.Answer(t.menuRaw, DBusMenu.Menu) == BaseArg(menu)
    ensures forall m :: m !in DBusMenu.MandatoryMethods ==> DBusMenu.Answer(t.menuRaw, m) == TraitDefault(m)
  {
    Tray(StatusNotifier.Instance(boot, id, title), DBusMenu.MenuInstance(menuBoot, menu, revision))
  }

  /** The status-icon builder methods (`with_tool_tip` .. `with_context_menu`): wrap the
      status-icon program and leave the menu program as it is. */
  function WithNotifier(t: Tray, w: StatusNotifier.Wrapper, f: HandlerId): (r: Tray)
    ensures StatusNotifier.Answer(r.notifierRaw, StatusNotifier.Overrides(w)) == Handler(f, StatusNotifier.WrapsOk(w))
    ensures r.notifierRaw == StatusNotifier.Wrap(w, f, t.notifierRaw)
    ensures r.menuRaw == t.menuRaw
    ensures StatusNotifier.Handlers(r.notifierRaw) == StatusNotifier.Handlers(t.notifierRaw) + {f}
  {
    Tray(StatusNotifier.Wrap(w, f, t.notifierRaw), t.menuRaw)
  }

  /** The menu builder methods (`with_menu_status` .. `with_about_to_show_group`): wrap the
      menu program and leave the status-icon program as it is. */
  function WithMenu(t: Tray, w: DBusMenu.Wrapper, f: HandlerId): (r: Tray)
    ensures DBusMenu.Answer(r.menuRaw, DBusMenu.Overrides(w)) == Handler(f, DBusMenu.WrapsOk(w))
    ensures r.menuRaw == DBusMenu.Wrap(w, f, t.menuRaw)
    ensures r.notifierRaw == t.notifierRaw
    ensures DBusMenu.Handlers(r.menuRaw) == DBusMenu.Handlers(t.menuRaw) + {f}
  {
    Tray(t.notifierRaw, DBusMenu.Wrap(w, f, t.menuRaw))
  }

  /** Status-icon and menu builder steps act on different programs, so they commute. */
  lemma NotifierAndMenuStepsCommute(t: Tray, w: StatusNotifier.Wrapper, f: HandlerId, v: DBusMenu.Wrapper, g: HandlerId)
    ensures WithMenu(WithNotifier(t, w, f), v, g) == WithNotifier(WithMenu(t, v, g), w, f)
  {
  }
}
