/**
 * The status-icon half of the capability composer (src/tray.rs): the base object `tray()`
 * builds for the StatusNotifierItem interface, the seventeen `with_<capability>` wrappers
 * around it, and the resolver that says which function answers each of the interface's
 * twenty methods.
 */
module StatusNotifier {
  import opened Capability

  /** The twenty methods of the StatusNotifierItem trait, in the order the wrappers list them. */
  datatype Method =
    | Id | Boot | Scroll | ContextMenu | Activate | SecondaryActivate | ToolTip | IconThemePath
    | IconName | IconPixmap | AttentionIconName | AttentionIconPixmap | AttentionMovieName
    | OverlayIconName | OverlayIconPixmap | Title | Category | Status | ItemIsMenu | WindowId

  const AllMethods: set<Method> :=
    {Id, Boot, Scroll, ContextMenu, Activate, SecondaryActivate, ToolTip, IconThemePath,
     IconName, IconPixmap, AttentionIconName, AttentionIconPixmap, AttentionMovieName,
     OverlayIconName, OverlayIconPixmap, Title, Category, Status, ItemIsMenu, WindowId}

  /** The methods `tray()` answers from its own arguments; no wrapper exists for them. */
  const MandatoryMethods: set<Method> := {Id, Boot, Title}

  /** Methods whose reply is a `zbus::fdo::Result`, and so may be an error reply. */
  predicate ReturnsResult(m: Method) {
    m != Id && m != Boot && m != Category && m != ItemIsMenu
  }

  /** One wrapper struct per `with_<capability>` function, named as in the source. */
  datatype Wrapper =
    | WithItemIsMenu | WithToolTip | WithIconThemePath | WithIconName | WithIconPixmap
    | WithAttentionIconName | WithAttentionPixmap | WithAttentionMovieName | WithOverlayIconName
    | WithOverlayIconPixmap | WithContextMenu | WithScroll | WithCategory | WithActive
    | WithSecondaryActive | WithStatus | WithWindowId

  /** A composed status-icon program: `tray()`'s base object, or a wrapper around a program. */
  datatype Program =
    | Instance(boot: HandlerId, id: HandlerId, title: HandlerId)
    | Wrapped(wrapper: Wrapper, handler: HandlerId, program: Program)

  /** The method a wrapper answers with its own handler. */
  function Overrides(w: Wrapper): (m: Method)
    ensures m !in MandatoryMethods
  {
    match w
    case WithItemIsMenu => ItemIsMenu
    case WithToolTip => ToolTip
    case WithIconThemePath => IconThemePath
    case WithIconName => IconName
    case WithIconPixmap => IconPixmap
    case WithAttentionIconName => AttentionIconName
    case WithAttentionPixmap => AttentionIconPixmap
    case WithAttentionMovieName => AttentionMovieName
    case WithOverlayIconName => OverlayIconName
    case WithOverlayIconPixmap => OverlayIconPixmap
    case WithContextMenu => ContextMenu
    case WithScroll => Scroll
    case WithCategory => Category
    case WithActive => Activate
    case WithSecondaryActive => SecondaryActivate
    case WithStatus => Status
    case WithWindowId => WindowId
  }

  /** The wrappers whose handler returns a plain value that the wrapper puts in `Ok(..)`. */
  predicate WrapsOk(w: Wrapper) {
    w == WithStatus || w == WithWindowId
  }

  /** The two pixmap wrappers that answer `attention_icon_name` with the inner `icon_name`. */
  predicate AnswersAttentionNameWithIconName(w: Wrapper) {
    w == WithAttentionPixmap || w == WithOverlayIconPixmap
  }

  /** The handlers supplied through wrappers. */
  function Handlers(p: Program): (hs: set<HandlerId>)
    ensures p.Wrapped? ==> p.handler in hs
  {
    match p
    case Instance(_, _, _) => {}
    case Wrapped(_, f, q) => {f} + Handlers(q)
  }

  /** The base object at the core of a composed program. */
  function Root(p: Program): (r: Program)
    ensures r.Instance?
  {
    match p
    case Instance(_, _, _) => p
    case Wrapped(_, _, q) => Root(q)
  }

  /** Which function answers a call of `m` on `p`. */
  function Answer(p: Program, m: Method): (r: Source<Method>)
    ensures r.BaseArg? <==> m in MandatoryMethods
    ensures r.Handler? ==> r.h in Handlers(p)
    ensures r.Handler? ==> (r.wrapsOk <==> m == Status || m == WindowId)
    ensures r.TraitDefault? ==> r.of !in MandatoryMethods
    ensures r.TraitDefault? ==> r.of == m || (m == AttentionIconName && r.of == IconName)
  {
    match p
    case Instance(b, i, t) =>
      if m == Id then BaseArg(i)
      else if m == Boot then BaseArg(b)
      else if m == Title then BaseArg(t)
      else TraitDefault(m)
    case Wrapped(w, f, q) =>
      if m == Overrides(w) then Handler(f, WrapsOk(w))
      else if m == AttentionIconName && AnswersAttentionNameWithIconName(w) then Answer(q, IconName)
      else Answer(q, m)
  }

  /** `with_<capability>(program, f)`: the wrapper struct around `program`. */
  function Wrap(w: Wrapper, f: HandlerId, program: Program): (r: Program)
    ensures Answer(r, Overrides(w)) == Handler(f, WrapsOk(w))
    ensures forall m :: m != Overrides(w) && m != AttentionIconName ==> Answer(r, m) == Answer(program, m)
    ensures AnswersAttentionNameWithIconName(w) ==> Answer(r, AttentionIconName) == Answer(program, IconName)
    ensures w != WithAttentionIconName && !AnswersAttentionNameWithIconName(w) ==>
              Answer(r, AttentionIconName) == Answer(program, AttentionIconName)
  {
    Wrapped(w, f, program)
  }

  /** One wrapper step: a wrapper is transparent to every method it neither answers itself
      nor redirects to another method of its inner program. */
  lemma Transparent(w: Wrapper, f: HandlerId, q: Program, m: Method)
    requires m != Overrides(w)
    requires !(m == AttentionIconName && AnswersAttentionNameWithIconName(w))
    ensures Answer(Wrapped(w, f, q), m) == Answer(q, m)
  {
  }

  /** Whether a call of `m` on `p` replies with an error, when `fails(h)` tells whether the
      supplied function `h` returns an error on this call and `defaultFails(d)` whether the
      trait's default body of `d` does. */
  function ErrorReply(p: Program, m: Method, fails: HandlerId -> bool, defaultFails: Method -> bool): (e: bool)
    ensures e ==> ReturnsResult(m)
    ensures Answer(p, m).Handler? && Answer(p, m).wrapsOk ==> !e
    ensures ReturnsResult(m) && Answer(p, m).Handler? && !Answer(p, m).wrapsOk ==> (e <==> fails(Answer(p, m).h))
  {
    ReturnsResult(m) &&
    match Answer(p, m)
    case Handler(h, wrapsOk) => !wrapsOk && fails(h)
    case BaseArg(h) => fails(h)
    case TraitDefault(d) => defaultFails(d)
  }

  // ------------------------------------------------------------------------------ properties

  /** `id`, `boot` and `title` always come from `tray()`'s arguments, whatever is wrapped
      around the base object. */
  lemma {:induction false} MandatoryFromBase(p: Program)
    ensures Answer(p, Id) == BaseArg(Root(p).id)
    ensures Answer(p, Boot) == BaseArg(Root(p).boot)
    ensures Answer(p, Title) == BaseArg(Root(p).title)
  {
    match p
    case Instance(_, _, _) =>
    case Wrapped(w, f, q) =>
      MandatoryFromBase(q);
  }

  /** Applying a capability twice: the outer handler wins and the inner wrapper becomes
      unobservable, on every method. */
  lemma OuterHandlerWins(w: Wrapper, inner: HandlerId, outer: HandlerId, p: Program, m: Method)
    ensures Answer(Wrapped(w, outer, Wrapped(w, inner, p)), m) == Answer(Wrapped(w, outer, p), m)
    ensures inner !in Handlers(p) && inner != outer ==>
              !(Answer(Wrapped(w, outer, Wrapped(w, inner, p)), m).Handler? &&
                Answer(Wrapped(w, outer, Wrapped(w, inner, p)), m).h == inner)
  {
  }

  /** The `status` and `window_id` handlers cannot make the reply an error. */
  lemma InfallibleHandlers(p: Program, m: Method, fails: HandlerId -> bool, defaultFails: Method -> bool)
    requires m == Status || m == WindowId
    requires Answer(p, m).Handler?
    ensures !ErrorReply(p, m, fails, defaultFails)
  {
  }

  /** Any other supplied handler's error is the reply's error. */
  lemma FallibleHandlers(p: Program, m: Method, fails: HandlerId -> bool, defaultFails: Method -> bool)
    requires ReturnsResult(m) && m != Status && m != WindowId
    requires Answer(p, m).Handler?
    ensures ErrorReply(p, m, fails, defaultFails) == fails(Answer(p, m).h)
  {
  }

  /** The methods whose answer a wrapper changes. */
  function Touched(w: Wrapper): (ms: set<Method>)
    ensures Overrides(w) in ms
  {
    if AnswersAttentionNameWithIconName(w) then {Overrides(w), AttentionIconName} else {Overrides(w)}
  }

  /** The methods a wrapper reads from its inner program under another method's name. */
  function Consulted(w: Wrapper): (ms: set<Method>)
    ensures ms <= {IconName}
  {
    if AnswersAttentionNameWithIconName(w) then {IconName} else {}
  }

  /** Wrappers that neither touch the same method nor touch what the other consults can be
      applied in either order. */
  lemma DisjointWrappersCommute(w1: Wrapper, f1: HandlerId, w2: Wrapper, f2: HandlerId, p: Program, m: Method)
    requires Touched(w1) !! Touched(w2)
    requires Touched(w1) !! Consulted(w2) && Touched(w2) !! Consulted(w1)
    ensures Answer(Wrapped(w1, f1, Wrapped(w2, f2, p)), m) == Answer(Wrapped(w2, f2, Wrapped(w1, f1, p)), m)
  {
  }

  /** The `attention_icon_name` deviation makes order matter: a pixmap wrapper applied after
      `with_icon_name` reports that icon name as the attention icon name, applied before it
      does not. */
  lemma PixmapWrapperOrderMatters(w: Wrapper, f: HandlerId, g: HandlerId, p: Program)
    requires AnswersAttentionNameWithIconName(w)
    ensures Answer(Wrapped(w, f, Wrapped(WithIconName, g, p)), AttentionIconName) == Handler(g, false)
    ensures Answer(Wrapped(WithIconName, g, Wrapped(w, f, p)), AttentionIconName) == Answer(p, IconName)
  {
  }

  /** On a bare base object the two orders give different answers. */
  lemma PixmapWrapperOrderWitness()
    ensures Answer(Wrapped(WithAttentionPixmap, 3, Wrapped(WithIconName, 4, Instance(0, 1, 2))), AttentionIconName)
         != Answer(Wrapped(WithIconName, 4, Wrapped(WithAttentionPixmap, 3, Instance(0, 1, 2))), AttentionIconName)
  {
  }

  // ----------------------------------------------------- reference: a table of handler slots

  /** The same composition described as a table with one slot per method: `tray()` fills the
      table and each wrapper assigns to the slots it changes. */
  function Table(p: Program): (t: map<Method, Source<Method>>)
    ensures forall m :: m in t
  {
    match p
    case Instance(b, i, ti) =>
      assert forall m :: m in AllMethods by {
        forall m ensures m in AllMethods { MethodListed(m); }
      }
      (map m | m in AllMethods :: TraitDefault(m))[Id := BaseArg(i)][Boot := BaseArg(b)][Title := BaseArg(ti)]
    case Wrapped(w, f, q) => Assign(Table(q), w, f)
  }

  /** The slot assignments of one wrapper. */
  function Assign(t: map<Method, Source<Method>>, w: Wrapper, f: HandlerId): (t': map<Method, Source<Method>>)
    requires forall m :: m in t
    ensures forall m :: m in t'
  {
    var t1 := if AnswersAttentionNameWithIconName(w) then t[AttentionIconName := t[IconName]] else t;
    t1[Overrides(w) := Handler(f, WrapsOk(w))]
  }

  /** The slot table and the resolver agree on every method of every composed program. */
  lemma {:induction false} TableAgreesWithAnswer(p: Program)
    ensures forall m :: m in Table(p) && Table(p)[m] == Answer(p, m)
  {
    match p
    case Instance(b, i, t) =>
      forall m ensures m in Table(p) && Table(p)[m] == Answer(p, m) {
        BaseTableAgrees(b, i, t, m);
      }
    case Wrapped(w, f, q) =>
      TableAgreesWithAnswer(q);
      forall m ensures m in Table(p) && Table(p)[m] == Answer(p, m) {
        AssignAgrees(Table(q), w, f, q, m);
      }
  }

  /** One wrapper step preserves the agreement of the table with the resolver. */
  lemma AssignAgrees(t: map<Method, Source<Method>>, w: Wrapper, f: HandlerId, q: Program, m: Method)
    requires forall m' :: m' in t && t[m'] == Answer(q, m')
    ensures m in Assign(t, w, f) && Assign(t, w, f)[m] == Answer(Wrapped(w, f, q), m)
  {
  }

  lemma BaseTableAgrees(b: HandlerId, i: HandlerId, t: HandlerId, m: Method)
    ensures Table(Instance(b, i, t))[m] == Answer(Instance(b, i, t), m)
  {
    MethodListed(m);
  }

  lemma MethodListed(m: Method)
    ensures m in AllMethods
  {
    match m
    case Id => case Boot => case Scroll => case ContextMenu => case Activate =>
    case SecondaryActivate => case ToolTip => case IconThemePath => case IconName =>
    case IconPixmap => case AttentionIconName => case AttentionIconPixmap =>
    case AttentionMovieName => case OverlayIconName => case OverlayIconPixmap => case Title =>
    case Category => case Status => case ItemIsMenu => case WindowId =>
  }
}
