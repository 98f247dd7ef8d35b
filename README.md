# libappindicator-zbus: the capability composer, modelled in Dafny

libappindicator-zbus lets an application put an icon in the desktop's system tray. It does
this by serving two D-Bus interfaces: StatusNotifierItem (the icon), and
com.canonical.dbusmenu (the icon's menu). The application never implements those interfaces
itself. Instead:

- `tray(boot, id, title, menu_boot, menu, revision)` builds two base objects from the
  functions every tray needs;
- each `with_<capability>(f)` builder step wraps one of them in a struct that answers one
  method with `f` and forwards every other method inward;
- a method nobody supplied falls through to the trait's default body.

This project models that composition and the example application `examples/base.rs`.

- **`Capability`**: the answer to "who handles a call":
  - a supplied handler (`Handler`);
  - an argument of `tray()` (`BaseArg`);
  - the trait default (`TraitDefault`).

  A `HandlerId` names a function or value the application handed over. Handlers are opaque.
- **`StatusNotifier`** (status-icon side of `src/tray.rs`):
  - the twenty methods of the trait;
  - the seventeen wrapper structs;
  - `Program`, which is a base object or a wrapper around a program;
  - the resolver `Answer`;
  - `ErrorReply`, which says when a reply is an error;
  - properties of the composition;
  - a second, table-of-slots description (`Table`), proved to agree with `Answer`.
- **`DBusMenu`**: the same for the menu side (ten methods, seven wrappers).
- **`Tray`**: `tray()` and the `Tray::with_*` builder methods, which pair the two programs.
  Each builder step wraps exactly one side.
- **`EventTypes`**: the D-Bus encodings and defaults of `ToggleType`, `ToggleState` and
  `TextDirection` (`src/dbusmenu/event_types.rs`).
- **`MenuModel`**: the menu entry shapes that `examples/base.rs` builds and edits.
- **`BaseExample`**:
  - the example's menu state as a class `Menu`;
  - its click handler, which keeps a radio group exclusive by updating the group's
    selections in place;
  - the tray that `main` composes.

The source's wrappers reproduced as written:

- `WithAttentionPixmap` and `WithOverlayIconPixmap` answer `attention_icon_name` by asking
  the inner program for its `icon_name`. `WithAttentionIconName` answers it with its own
  handler. Every other wrapper forwards `attention_icon_name` unchanged.
- `WithOnToggled` defines no `text_direction`, so behind it the trait default answers, even
  when a `with_text_direction` was applied earlier.
- The status-icon `status`, `window_id`, menu `status` and `about_to_show` wrappers put their
  handler's plain value in `Ok(..)`. Those handlers cannot produce an error reply.

## Model

| member | source | states |
|---|---|---|
| StatusNotifier.Overrides | src/tray.rs:381-1905 | each status-icon wrapper overrides exactly one method, never `id`, `boot` or `title` |
| StatusNotifier.Answer | src/tray.rs:381-1905 | a method is answered by a `tray()` argument exactly when it is `id`, `boot` or `title`; a handler answer is one of the supplied handlers and is `Ok`-wrapped exactly for `status` and `window_id`; a default answer is never for a mandatory method, and is the default of the method asked, except that `attention_icon_name` may be answered by the default `icon_name` behind a pixmap wrapper |
| StatusNotifier.Wrap | src/tray.rs:381-1905 | `with_<capability>` answers its own method with its handler; it forwards every other method except `attention_icon_name` unchanged; the two pixmap wrappers answer `attention_icon_name` with the inner `icon_name`; the other wrappers (not the attention-icon-name one) forward it unchanged |
| StatusNotifier.Transparent | src/tray.rs:469-555 | a status-icon wrapper answers every method it neither overrides nor redirects exactly as its inner program does |
| StatusNotifier.ErrorReply | src/tray.rs:1575-1580 | only a method whose trait signature returns a `Result` can reply with an error; a handler whose value the wrapper puts in `Ok(..)` never does; any other supplied handler makes the reply an error exactly when it returns one |
| StatusNotifier.MandatoryFromBase | src/tray.rs:2379-2388 | whatever is wrapped around the base object, `id`, `boot` and `title` are answered by the corresponding `tray()` arguments |
| StatusNotifier.OuterHandlerWins | src/tray.rs:647-734 | applying one capability twice is the same, on every method, as applying only the outer one; when the inner handler is fresh, no method is answered by it |
| StatusNotifier.InfallibleHandlers | src/tray.rs:1805-1807 | a supplied `status` (and likewise `window_id`, tray.rs:1899-1901) handler cannot make the reply an error |
| StatusNotifier.FallibleHandlers | src/tray.rs:1579-1581 | for every other fallible method answered by a supplied handler, the reply is an error exactly when the handler returns one |
| StatusNotifier.DisjointWrappersCommute | src/tray.rs:381-1905 | two wrappers that change, and read, disjoint sets of methods can be applied in either order with the same answers |
| StatusNotifier.PixmapWrapperOrderMatters | src/tray.rs:972-974 | a pixmap wrapper applied after `with_icon_name` reports that icon name as the attention icon name; applied before it, it reports the inner icon name |
| StatusNotifier.PixmapWrapperOrderWitness | src/tray.rs:1243-1245 | a concrete program on which the two orders give different attention icon names |
| StatusNotifier.Table | src/tray.rs:2366-2388 | the slot-table description fills a slot for every method |
| StatusNotifier.Assign | src/tray.rs:918-1006 | a wrapper's slot assignment keeps every method's slot present |
| StatusNotifier.TableAgreesWithAnswer | src/tray.rs:381-1905 | the slot table and the resolver give the same answer for every method of every program |
| StatusNotifier.AssignAgrees | src/tray.rs:1189-1277 | one wrapper step preserves the table's agreement with the resolver |
| DBusMenu.Overrides | src/tray.rs:1906-2347 | each menu wrapper overrides exactly one method, never `boot`, `revision` or `menu` |
| DBusMenu.Answer | src/tray.rs:1906-2347 | a method is answered by a `tray()` argument exactly when it is `boot`, `revision` or `menu`; a handler answer is a supplied handler, `Ok`-wrapped exactly for `status` and `about_to_show`; a default answer is the default of the method asked |
| DBusMenu.Wrap | src/tray.rs:1906-2347 | a menu wrapper answers its own method with its handler and forwards the rest; after `with_on_toggled`, `text_direction` is the trait default |
| DBusMenu.Transparent | src/tray.rs:1906-1968 | a menu wrapper answers every method it neither overrides nor drops exactly as its inner program does |
| DBusMenu.ErrorReply | src/tray.rs:1936-1943 | only a menu method whose trait signature returns a `Result` can reply with an error; a `status` or `about_to_show` handler, put in `Ok(..)`, never does; any other supplied handler makes the reply an error exactly when it returns one |
| DBusMenu.MandatoryFromBase | src/tray.rs:2408-2416 | whatever is wrapped around the base object, `boot`, `revision` and `menu` are answered by the corresponding `tray()` arguments |
| DBusMenu.OuterHandlerWins | src/tray.rs:2094-2157 | applying one menu capability twice is the same as applying only the outer one; when the inner handler is fresh, no method is answered by it |
| DBusMenu.InfallibleHandlers | src/tray.rs:1941-1943 | a supplied menu `status` (and likewise `about_to_show`, tray.rs:2246-2248) handler cannot make the reply an error |
| DBusMenu.FallibleHandlers | src/tray.rs:2284-2347 | a supplied `about_to_show_group` handler's error is the reply's error |
| DBusMenu.DisjointWrappersCommute | src/tray.rs:1906-2347 | menu wrappers that change disjoint sets of methods can be applied in either order |
| DBusMenu.OnToggledDiscardsTextDirection | src/tray.rs:2042-2087 | `with_on_toggled` applied after `with_text_direction` discards it; applied before, the text direction handler survives |
| DBusMenu.TextDirectionAfterOnToggled | src/tray.rs:2033-2093 | in every program, the text direction comes from a handler exactly when a `with_text_direction` lies outside every `with_on_toggled` |
| DBusMenu.Table | src/tray.rs:2390-2416 | the slot-table description fills a slot for every menu method |
| DBusMenu.Assign | src/tray.rs:2033-2093 | a menu wrapper's slot assignment keeps every slot present |
| DBusMenu.TableAgreesWithAnswer | src/tray.rs:1906-2347 | the slot table and the resolver agree on every menu method of every program |
| DBusMenu.AssignAgrees | src/tray.rs:2042-2087 | one menu wrapper step preserves the table's agreement with the resolver |
| Tray.NewTray | src/tray.rs:2350-2433 | `tray()` answers the mandatory methods of both interfaces from its six arguments and every other method with the trait default |
| Tray.WithNotifier | src/tray.rs:155-310 | a status-icon builder method wraps the status-icon program in the wrapper, so every `StatusNotifier.Wrap` property holds of it: it answers its method with the new handler and forwards the rest as the wrapper does; it adds exactly that handler, and leaves the menu program untouched |
| Tray.WithMenu | src/tray.rs:312-378 | a menu builder method wraps the menu program in the wrapper, so every `DBusMenu.Wrap` property holds of it: it answers its method with the new handler and forwards the rest as the wrapper does; it adds exactly that handler, and leaves the status-icon program untouched |
| Tray.NotifierAndMenuStepsCommute | src/tray.rs:155-378 | a status-icon step and a menu step give the same tray in either order |
| EventTypes.EncodeToggleType | src/dbusmenu/event_types.rs:8-15 | a toggle type encodes to one of "checkmark", "radio", "" and decodes back to itself |
| EventTypes.DecodeToggleType | src/dbusmenu/event_types.rs:8-15 | a string decodes to a toggle type exactly when it is one of the three encodings |
| EventTypes.DefaultToggleType | src/dbusmenu/event_types.rs:11-12 | the default toggle type is the one encoded "radio" |
| EventTypes.ToggleTypeDecodeOnlyEncodings | src/dbusmenu/event_types.rs:8-15 | whatever decodes is the encoding of what it decodes to |
| EventTypes.ToggleTypeEncodingInjective | src/dbusmenu/event_types.rs:9-15 | distinct toggle types have distinct encodings |
| EventTypes.EncodeToggleState | src/dbusmenu/event_types.rs:20-26 | a toggle state encodes to an `i32` in 0..2 and decodes back to itself |
| EventTypes.DecodeToggleState | src/dbusmenu/event_types.rs:20-26 | an `i32` decodes to a toggle state exactly when it is 0, 1 or 2 |
| EventTypes.DefaultToggleState | src/dbusmenu/event_types.rs:22-23 | the default toggle state is the one encoded 0 |
| EventTypes.ToggleStateDecodeOnlyEncodings | src/dbusmenu/event_types.rs:20-26 | whatever decodes is the encoding of what it decodes to |
| EventTypes.ToggleStateEncodingInjective | src/dbusmenu/event_types.rs:21-26 | distinct toggle states have distinct encodings |
| EventTypes.EncodeTextDirection | src/dbusmenu/event_types.rs:31-40 | a text direction encodes to one of "inherit", "rtl", "ltr" and decodes back to itself |
| EventTypes.DecodeTextDirection | src/dbusmenu/event_types.rs:31-40 | a string decodes to a text direction exactly when it is one of the three encodings |
| EventTypes.DefaultTextDirection | src/dbusmenu/event_types.rs:33-35 | the default text direction is the one encoded "inherit" |
| EventTypes.TextDirectionDecodeOnlyEncodings | src/dbusmenu/event_types.rs:31-40 | whatever decodes is the encoding of what it decodes to |
| EventTypes.TextDirectionEncodingInjective | src/dbusmenu/event_types.rs:32-40 | distinct text directions have distinct encodings |
| BaseExample.ClickSelection | examples/base.rs:116-126 | a radio button keeps its message and every option but its toggle state, which becomes Selected exactly when its message is the forwarded one; any other entry is unchanged |
| BaseExample.ClickSelections | examples/base.rs:115-127 | the click step keeps the group's length and acts on each entry independently |
| BaseExample.SelectedCount | examples/base.rs:56-76 | the number of selected radio buttons is at most the group's length, and zero when none is selected |
| BaseExample.ClickKeepsMessages | examples/base.rs:116-127 | a click keeps the radio buttons' messages, so distinct messages stay distinct and the same messages stay on offer: exclusivity holds after any sequence of clicks |
| BaseExample.ClickWithForeignMessageSelectsNone | examples/base.rs:116-127 | a click whose message no radio button carries leaves no entry selected |
| BaseExample.ClickSelectsExactlyOne | examples/base.rs:116-127 | when the radio buttons' messages are distinct and one of them is forwarded, exactly one entry is selected afterwards |
| BaseExample.InitialGroupIsExclusive | examples/base.rs:56-76 | the example group starts with exactly "abc" selected, has distinct messages, and a click on either entry leaves exactly one selected |
| BaseExample.Menu.Boot | examples/base.rs:46-49 | the menu state starts with the example menu at revision 0 |
| BaseExample.Menu.Revision | examples/base.rs:51-53 | the revision query returns the stored counter, a `u32` |
| BaseExample.Menu.MakeMenu | examples/base.rs:55-103 | the menu is Hello, the radio group with exactly the entries "abc" (selected, `Toggled(1)`) and "efg" (`Toggled(2)`), World, and a submenu "Next" holding Good |
| BaseExample.Menu.Status | examples/base.rs:105-107 | the menu status is always Normal |
| BaseExample.Menu.OnClicked | examples/base.rs:109-133 | on a radio group, the selections become the click step of their old value and the revision advances by one modulo 2^32 with `UpdateCurrent`; on any other entry nothing changes and `None` is returned; the menu tree field is never touched |
| BaseExample.MainNotifierInner | examples/base.rs:138-148 | the first three status-icon steps sit around `tray()`'s base object and supply exactly the item-is-menu, icon-name and activate handlers |
| BaseExample.MainNotifier | examples/base.rs:138-153 | all seven status-icon steps sit around `tray()`'s base object and supply exactly the seven handlers handed to them |
| BaseExample.MainMenu | examples/base.rs:138-155 | the three menu steps sit around `tray()`'s menu base object and supply exactly the text-direction, menu-status and on-clicked handlers |
| BaseExample.MainTray | examples/base.rs:138-155 | `main`'s chain, whatever functions and values it is handed, wraps the status-icon side in its seven status-icon steps and the menu side in its three menu steps, each in call order, around the `tray()` base objects |
| BaseExample.OuterNotifierStepsTransparent | examples/base.rs:149-153 | the category, context-menu, scroll and secondary-activate steps pass every other method to the program inside them |
| BaseExample.InnerNotifierStepsTransparent | examples/base.rs:146-148 | the item-is-menu, icon-name and activate steps pass every other method to `tray()`'s base object |
| BaseExample.MainNotifierMandatory | examples/base.rs:138-145 | the example icon's id, title and boot are the ones handed to `tray()` |
| BaseExample.MainNotifierActivate | examples/base.rs:148-153 | activation is answered by the function handed to `with_activate`, although four later steps wrap it |
| BaseExample.MainNotifierScroll | examples/base.rs:152-153 | scrolling is answered by the function handed to `with_scroll` |
| BaseExample.MainNotifierAttentionIcon | examples/base.rs:146-153 | no step supplies or redirects the attention icon name, so the trait default answers it |
| BaseExample.MenuStepsTransparent | examples/base.rs:150-155 | the text-direction, menu-status and on-clicked steps pass every other menu method to `tray()`'s base object |
| BaseExample.MainMenuAnswers | examples/base.rs:150-155 | the right-to-left text direction survives because `with_on_toggled` is never applied; toggling keeps the trait default; status and clicks come from the functions handed over; the revision comes from `tray()` |

## Left out

- `TrayConnection` with its state updates, `unique_name` and `notify_*` signals
  (src/tray.rs:26-116), and `Tray::run` (src/tray.rs:125-154), are not modelled. They open a session-bus connection, serve the two objects and register with the
  watcher, which is I/O.
- The bodies of the trait defaults are not part of this model. `TraitDefault(m)` records only
  that the default of `m` answers.
- What each handler computes is not modelled. A handler is an opaque `HandlerId`, and
  `ErrorReply` takes whether a handler fails as a parameter.
- The `*Fn` adapter traits are not part of this model. These let a plain value such as
  `false` or `"nheko"` stand in for a function. A `HandlerId` stands for either.
- The D-Bus layout, group-property and event dispatch code that calls `on_clicked` on an entry
  of the live tree is not part of this model. `ClickedUnit` stands for the `&mut MenuUnit` it
  hands over: a radio group's selections as an array updated in place, any other entry as a
  value.
- `MenuTree::push`, `MenuUnit::sub_menu` and `RadioGroupBuilder::append` come from code that
  is not part of this model. `MakeMenu` writes out the tree they build, assuming that each
  appends at the end.
- The `..Default::default()` fields of `RadioOptions` (examples/base.rs:63, 73) are left out
  of `RadioOptions`.
- BaseExample.Menu.OnClicked: the `println!` of the non-group path (examples/base.rs:131) is
  not modelled.
- BaseExample.Menu.OnClicked: `self.revision += 1` on a `u32` panics in a debug build when the
  counter is at its maximum. The model takes the release-build wrap-around to 0 instead.
  Below the maximum the two agree, and the contract states the plain `+ 1` there.
- EventTypes.EncodeToggleType: the string encoding follows the `zvariant` attributes on the
  enum (lower-case names, `None` as ""). The serde `Serialize` derive on the same enum would
  spell the variant names differently. Which of the two a D-Bus message carries depends on
  zvariant code that is not part of this model.
- EventTypes.EncodeTextDirection: the string encoding follows the `zvariant` renames on the
  enum ("inherit", "rtl", "ltr"). The serde `Serialize` derive on the same enum
  (src/dbusmenu/event_types.rs:28-40) would spell the names "Inherit", "Rtl", "Ltr". Which of
  the two a D-Bus message carries depends on zvariant code that is not part of this model.
- BaseExample.Menu.OnClicked: the timestamp is a `u32` parameter that the handler ignores.
- examples/pixmap.rs and src/lib.rs are not modelled. They hold a second example and the
  crate's re-exports.
