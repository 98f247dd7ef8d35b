/**
 * The shapes of the menu entries that examples/base.rs builds and inspects, and the values a
 * click handler and the status query return. Only the fields the example uses appear here.
 */
module MenuModel {
  import opened EventTypes

  datatype ButtonOptions = ButtonOptions(labelText: string, enabled: bool, iconName: string)

  datatype RadioOptions = RadioOptions(labelText: string, enabled: bool, toggleType: ToggleType, toggleState: ToggleState)

  /** One menu entry carrying an application message of type `M`. */
  datatype MenuUnit<M> =
    | Button(button: ButtonOptions, message: M)
    | RadioGroup(selections: seq<MenuUnit<M>>)
    | RadioButton(options: RadioOptions, message: M)
    | SubMenu(labelText: string, children: seq<MenuUnit<M>>)
    | Separator

  /** The root of a menu: its top-level entries in order. */
  datatype MenuTree<M> = MenuTree(units: seq<MenuUnit<M>>)

  /** What a click or toggle handler reports: nothing to announce, a change of the clicked
      entry's parent, or a change of the whole tree. */
  datatype EventUpdate = None | UpdateCurrent | UpdateAll

  /** The two values of the com.canonical.dbusmenu `Status` property. */
  datatype MenuStatus = Normal | Notice

  /**
   * The entry a click lands on, handed to the click handler by mutable reference. A radio
   * group's selections are a buffer the handler updates in place; any other entry is
   * handed over as a value.
   */
  datatype ClickedUnit<M> = Group(selections: array<MenuUnit<M>>) | Single(unit: MenuUnit<M>) {
    /** A radio group is always handed over as its buffer. */
    predicate Valid() {
      Single? ==> !unit.RadioGroup?
    }

    function Footprint(): set<object> {
      if Group? then {selections} else {}
    }
  }
}
