/**
 * The menu half of the capability composer (src/tray.rs): the base object `tray()` builds for
 * the com.canonical.dbusmenu interface, the seven `with_<capability>` wrappers around it, and
 * the resolver that says which function answers each of the interface's ten methods.
 */
module DBusMenu {
  import opened Capability

  /** The ten methods of the DBusMenuItem trait. */
  datatype Method =
    | Boot | Revision | Menu | AboutToShow | AboutToShowGroup | Status | OnClicked | OnToggled
    | TextDirection | IconThemePath

  const AllMethods: set<Method> :=
    {Boot, Revision, Menu, AboutToShow, AboutToShowGroup, Status, OnClicked, OnToggled,
     TextDirection, IconThemePath}

  /** The methods `tray()` answers from its own arguments; no wrapper exists for them. */
  const MandatoryMethods: set<Method> := {Boot, Revision, Menu}

  /** Methods whose reply is a `zbus::fdo::Result`, and so may be an error reply. */
  predicate ReturnsResult(m: Method) {
    m == AboutToShow || m == AboutToShowGroup || m == Status
  }

  /** One wrapper struct per `with_<capability>` function, named as in the source. */
  datatype Wrapper =
    | WithMenuStatus | WithOnClicked | WithOnToggled | WithTextDirection | WithIconThemePath
    | WithAboutToShow | WithAboutToShowGroup

  /** A composed menu program: `tray()`'s base object, or a wrapper around a program. */
  datatype Program =
    | MenuInstance(boot: HandlerId, menu: HandlerId, revision: HandlerId)
    | Wrapped(wrapper: Wrapper, handler: HandlerId, program: Program)

  /** The method a wrapper answers with its own handler. */
  function Overrides(w: Wrapper): (m: Method)
    ensures m !in MandatoryMethods
  {
    match w
    case WithMenuStatus => Status
    case WithOnClicked => OnClicked
    case WithOnToggled => OnToggled
    case WithTextDirection => TextDirection
    case WithIconThemePath => IconThemePath
    case WithAboutToShow => AboutToShow
    case WithAboutToShowGroup => AboutToShowGroup
  }

  /** The wrappers whose handler returns a plain value that the wrapper puts in `Ok(..)`. */
  predicate WrapsOk(w: Wrapper) {
    w == WithMenuStatus || w == WithAboutToShow
  }

  /** `WithOnToggled` defines no `text_direction`, so the trait's default body answers it. */
  predicate Drops(w: Wrapper, m: Method) {
    w == WithOnToggled && m == TextDirection
  }

  /** The handlers supplied through wrappers. */
  function Handlers(p: Program): (hs: set<HandlerId>)
    ensures p.Wrapped? ==> p.handler in hs
  {
    match p
    case MenuInstance(_, _, _) => {}
    case Wrapped(_, f, q) => {f} + Handlers(q)
  }

  /** The base object at the core of a composed program. */
  function Root(p: Program): (r: Program)
    ensures r.MenuInstance?
  {
    match p
    case MenuInstance(_, _, _) => p
    case Wrapped(_, _, q) => Root(q)
  }

  /** Which function answers a call of `m` on `p`. */
  function Answer(p: Program, m: Method): (r: Source<Method>)
    ensures r.BaseArg? <==> m in MandatoryMethods
    ensures r.Handler? ==> r.h in Handlers(p)
    ensures r.Handler? ==> (r.wrapsOk <==> m == Status || m == AboutToShow)
    ensures r.TraitDefault? ==> r.of == m
  {
    match p
    case MenuInstance(b, mf, rv) =>
      if m == Boot then BaseArg(b)
      else if m == Revision then BaseArg(rv)
      else if m == Menu then BaseArg(mf)
      else TraitDefault(m)
    case Wrapped(w, f, q) =>
      if m == Overrides(w) then Handler(f, WrapsOk(w))
      else if Drops(w, m) then TraitDefault(m)
      else Answer(q, m)
  }

  /** `with_<capability>(program, f)`: the wrapper struct around `program`. */
  function Wrap(w: Wrapper, f: HandlerId, program: Program): (r: Program)
    ensures Answer(r, Overrides(w)) == Handler(f, WrapsOk(w))
    ensures forall m :: m != Overrides(w) && !Drops(w, m) ==> Answer(r, m) == Answer(program, m)
    ensures w == WithOnToggled ==> Answer(r, TextDirection) == TraitDefault(TextDirection)
  {
    Wrapped(w, f, program)
  }

  /** One wrapper step: a wrapper is transparent to every method it neither answers itself
      nor drops. */
  lemma Transparent(w: Wrapper, f: HandlerId, q: Program, m: Method)
    requires m != Overrides(w) && !Drops(w, m)
    ensures Answer(Wrapped(w, f, q), m) == Answer(q, m)
  {
  }

  /** Whether a call of `m` on `p` replies with an error, when `fails(h)` tells whether the
      supplied function `h` returns an error on this call and `defaultFails(d)` whether the
      trait's default body of `d` does. */
  function ErrorReply(p: Program, m: Method, fails: HandlerId -> bool, defaultFails: Method -> bool): (e: bool)
    ensures e ==> ReturnsResult(m)
    ensures Answer(p, m).Handler? && Answer(p, m).wrapsOk ==> !e
    ensures ReturnsResult(m) && Answer(p, m).Handler? && !Answer(p, m).wrapsOk ==> (e <==> fails(Answer(p, m).h))
  {
    ReturnsResult(m) &&
    match Answer(p, m)
    case Handler(h, wrapsOk) => !wrapsOk && fails(h)
    case BaseArg(h) => fails(h)
    case TraitDefault(d) => defaultFails(d)
  }

  // ------------------------------------------------------------------------------ properties

  /** `boot`, `revision` and `menu` always come from `tray()`'s arguments, whatever is wrapped
      around the base object. */
  lemma {:induction false} MandatoryFromBase(p: Program)
    ensures Answer(p, Boot) == BaseArg(Root(p).boot)
    ensures Answer(p, Revision) == BaseArg(Root(p).revision)
    ensures Answer(p, Menu) == BaseArg(Root(p).menu)
  {
    match p
    case MenuInstance(_, _, _) =>
    case Wrapped(w, f, q) =>
      MandatoryFromBase(q);
  }

  /** Applying a capability twice: the outer handler wins and the inner wrapper becomes
      unobservable, on every method. */
  lemma OuterHandlerWins(w: Wrapper, inner: HandlerId, outer: HandlerId, p: Program, m: Method)
    ensures Answer(Wrapped(w, outer, Wrapped(w, inner, p)), m) == Answer(Wrapped(w, outer, p), m)
    ensures inner !in Handlers(p) && inner != outer ==>
              !(Answer(Wrapped(w, outer, Wrapped(w, inner, p)), m).Handler? &&
                Answer(Wrapped(w, outer, Wrapped(w, inner, p)), m).h == inner)
  {
  }

  /** The menu `status` and `about_to_show` handlers cannot make the reply an error. */
  lemma InfallibleHandlers(p: Program, m: Method, fails: HandlerId -> bool, defaultFails: Method -> bool)
    requires m == Status || m == AboutToShow
    requires Answer(p, m).Handler?
    ensures !ErrorReply(p, m, fails, defaultFails)
  {
  }

  /** The `about_to_show_group` handler's error is the reply's error. */
  lemma FallibleHandlers(p: Program, m: Method, fails: HandlerId -> bool, defaultFails: Method -> bool)
    requires ReturnsResult(m) && m != Status && m != AboutToShow
    requires Answer(p, m).Handler?
    ensures ErrorReply(p, m, fails, defaultFails) == fails(Answer(p, m).h)
  {
  }

  /** The methods whose answer a wrapper changes. */
  function Touched(w: Wrapper): (ms: set<Method>)
    ensures Overrides(w) in ms
  {
    if w == WithOnToggled then {OnToggled, TextDirection} else {Overrides(w)}
  }

  /** Wrappers that touch different methods can be applied in either order. */
  lemma DisjointWrappersCommute(w1: Wrapper, f1: HandlerId, w2: Wrapper, f2: HandlerId, p: Program, m: Method)
    requires Touched(w1) !! Touched(w2)
    ensures Answer(Wrapped(w1, f1, Wrapped(w2, f2, p)), m) == Answer(Wrapped(w2, f2, Wrapped(w1, f1, p)), m)
  {
  }

  /** `with_on_toggled` discards an earlier `with_text_direction`, while a later one survives:
      text direction and toggling do not compose independently of order. */
  lemma OnToggledDiscardsTextDirection(f: HandlerId, g: HandlerId, p: Program)
    ensures Answer(Wrapped(WithOnToggled, g, Wrapped(WithTextDirection, f, p)), TextDirection)
         == TraitDefault(TextDirection)
    ensures Answer(Wrapped(WithTextDirection, f, Wrapped(WithOnToggled, g, p)), TextDirection)
         == Handler(f, false)
  {
  }

  /** The text direction comes from a handler exactly when, going inwards from the outside, a
      `with_text_direction` comes before any `with_on_toggled`: once `with_on_toggled` has been
      applied, only a later `with_text_direction` supplies it. */
  lemma {:induction false} TextDirectionAfterOnToggled(p: Program)
    ensures Answer(p, TextDirection).Handler? <==> TextDirectionAboveOnToggled(p)
  {
    match p
    case Wrapped(w, f, q) =>
      if w != WithOnToggled && w != WithTextDirection {
        TextDirectionAfterOnToggled(q);
      }
    case MenuInstance(_, _, _) =>
  }

  /** Whether, going inwards from the outside, a `with_text_direction` wrapper comes before the
      first `with_on_toggled`. */
  predicate TextDirectionAboveOnToggled(p: Program) {
    p.Wrapped? && p.wrapper != WithOnToggled &&
    (p.wrapper == WithTextDirection || TextDirectionAboveOnToggled(p.program))
  }

  // ----------------------------------------------------- reference: a table of handler slots

  /** The same composition described as a table with one slot per method: `tray()` fills the
      table and each wrapper assigns to the slots it changes. */
  function Table(p: Program): (t: map<Method, Source<Method>>)
    ensures forall m :: m in t
  {
    match p
    case MenuInstance(b, mf, rv) =>
      assert forall m :: m in AllMethods by {
        forall m ensures m in AllMethods { MethodListed(m); }
      }
      (map m | m in AllMethods :: TraitDefault(m))[Boot := BaseArg(b)][Revision := BaseArg(rv)][Menu := BaseArg(mf)]
    case Wrapped(w, f, q) => Assign(Table(q), w, f)
  }

  /** The slot assignments of one wrapper. */
  function Assign(t: map<Method, Source<Method>>, w: Wrapper, f: HandlerId): (t': map<Method, Source<Method>>)
    requires forall m :: m in t
    ensures forall m :: m in t'
  {
    var t1 := if w == WithOnToggled then t[TextDirection := TraitDefault(TextDirection)] else t;
    t1[Overrides(w) := Handler(f, WrapsOk(w))]
  }

  /** The slot table and the resolver agree on every method of every composed program. */
  lemma {:induction false} TableAgreesWithAnswer(p: Program)
    ensures forall m :: m in Table(p) && Table(p)[m] == Answer(p, m)
  {
    match p
    case MenuInstance(b, mf, rv) =>
      forall m ensures m in Table(p) && Table(p)[m] == Answer(p, m) {
        BaseTableAgrees(b, mf, rv, m);
      }
    case Wrapped(w, f, q) =>
      TableAgreesWithAnswer(q);
      forall m ensures m in Table(p) && Table(p)[m] == Answer(p, m) {
        AssignAgrees(Table(q), w, f, q, m);
      }
  }

  /** One wrapper step preserves the agreement of the table with the resolver. */
  lemma AssignAgrees(t: map<Method, Source<Method>>, w: Wrapper, f: HandlerId, q: Program, m: Method)
    requires forall m' :: m' in t && t[m'] == Answer(q, m')
    ensures m in Assign(t, w, f) && Assign(t, w, f)[m] == Answer(Wrapped(w, f, q), m)
  {
  }

  lemma BaseTableAgrees(b: HandlerId, mf: HandlerId, rv: HandlerId, m: Method)
    ensures Table(MenuInstance(b, mf, rv))[m] == Answer(MenuInstance(b, mf, rv), m)
  {
    MethodListed(m);
  }

  lemma MethodListed(m: Method)
    ensures m in AllMethods
  {
    match m
    case Boot => case Revision => case Menu => case AboutToShow => case AboutToShowGroup =>
    case Status => case OnClicked => case OnToggled => case TextDirection => case IconThemePath =>
  }
}
