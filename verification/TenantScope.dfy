/** The tenant scope of requests (server/middleware/tenant.go).

    A request is a tree of messages. Its shape does not change; the int64 fields are slots of a store
    that the walk updates in place, so that a message shared by two parents is updated once for both.
    `TenantWalk` is the walk; the functions `Apply...` say what it does, and the lemmas that its
    outcome is a matter of which slots it reaches, not of the order in which it reaches them. */
module TenantScope {
  import opened Common

  const TENANT_FIELD: string := "tenant_id"

  /** A message value; `name` is the full name of its type. An invalid one is a nil message. */
  datatype Message = Message(valid: bool, name: string, fields: seq<Field>)

  datatype Field = Field(name: string, content: Content)

  /** What a field holds: a singular int64 in a slot, a repeated int64, another scalar or list or map of
      scalars, an optional message or group, a list of them, or a map to them in its order of iteration. */
  datatype Content =
    | Int64(slot: nat)
    | Int64List
    | Scalar
    | Single(message: Option<Message>)
    | Items(items: seq<Message>)
    | Entries(values: seq<Message>)

  /** An int64 field of a message: its value, whether it tracks presence, and whether it is present. */
  datatype Cell = Cell(value: int, tracksPresence: bool, present: bool)

  type Cells = map<nat, Cell>

  function Look(cells: Cells, slot: nat): Cell { if slot in cells then cells[slot] else Cell(0, false, false) }

  datatype Caller = Caller(defaultTenant: bool, tenantId: int)

  /** The refusals, and the panic of reading a repeated tenant_id as one number. */
  datatype Error = InvalidTenant | ZeroTenant | ForeignTenant | Panic

  datatype Outcome = Outcome(cells: Cells, error: Option<Error>)

  // ----- what the walk does -----

  function ApplyId(cells: Cells, slot: nat, c: Caller): Outcome {
    var cell := Look(cells, slot);
    if c.defaultTenant then Outcome(cells, None)
    else if c.tenantId <= 0 then Outcome(cells, Some(InvalidTenant))
    else if cell.tracksPresence && cell.present && cell.value == 0 then Outcome(cells, Some(ZeroTenant))
    else if cell.value < 0 then Outcome(cells, None)
    else if cell.value == 0 then Outcome(cells[slot := cell.(value := c.tenantId, present := true)], None)
    else if cell.value != c.tenantId then Outcome(cells, Some(ForeignTenant))
    else Outcome(cells, None)
  }

  function ApplyMessage(m: Message, cells: Cells, c: Caller, visited: set<string>): Outcome
    decreases m, 1
  {
    if !m.valid || m.name in visited then Outcome(cells, None)
    else ApplyFields(m.fields, |m.fields|, cells, c, visited + {m.name})
  }

  function ApplyFields(fields: seq<Field>, n: nat, cells: Cells, c: Caller, visited: set<string>): Outcome
    requires n <= |fields|
    decreases fields, n
  {
    if n == 0 then Outcome(cells, None)
    else
      var before := ApplyFields(fields, n - 1, cells, c, visited);
      if before.error.Some? then before else ApplyField(fields[n - 1], before.cells, c, visited)
  }

  function ApplyField(f: Field, cells: Cells, c: Caller, visited: set<string>): Outcome
    decreases f, 1
  {
    if f.name == TENANT_FIELD then
      match f.content
      case Int64(slot) => ApplyId(cells, slot, c)
      case Int64List => Outcome(cells, Some(Panic))
      case _ => Outcome(cells, None)
    else
      match f.content
      case Single(Some(m)) => ApplyMessage(m, cells, c, visited)
      case Items(ms) => ApplyAll(ms, |ms|, cells, c, visited)
      case Entries(ms) => ApplyAll(ms, |ms|, cells, c, visited)
      case _ => Outcome(cells, None)
  }

  function ApplyAll(ms: seq<Message>, n: nat, cells: Cells, c: Caller, visited: set<string>): Outcome
    requires n <= |ms|
    decreases ms, n
  {
    if n == 0 then Outcome(cells, None)
    else
      var before := ApplyAll(ms, n - 1, cells, c, visited);
      if before.error.Some? then before else ApplyMessage(ms[n - 1], before.cells, c, visited)
  }

  /** messageHasTenantField: any field of the name counts, whatever its kind. */
  predicate HasTenantField(m: Message, visited: set<string>)
    decreases m, 1
  {
    m.valid && m.name !in visited && FieldsHaveTenant(m.fields, |m.fields|, visited + {m.name})
  }

  predicate FieldsHaveTenant(fields: seq<Field>, n: nat, visited: set<string>)
    requires n <= |fields|
    decreases fields, n
  {
    n > 0 && (FieldsHaveTenant(fields, n - 1, visited) || FieldHasTenant(fields[n - 1], visited))
  }

  predicate FieldHasTenant(f: Field, visited: set<string>)
    decreases f, 1
  {
    f.name == TENANT_FIELD ||
    match f.content
    case Single(Some(m)) => HasTenantField(m, visited)
    case Items(ms) => AnyHasTenant(ms, |ms|, visited)
    case Entries(ms) => AnyHasTenant(ms, |ms|, visited)
    case _ => false
  }

  predicate AnyHasTenant(ms: seq<Message>, n: nat, visited: set<string>)
    requires n <= |ms|
    decreases ms, n
  {
    n > 0 && (AnyHasTenant(ms, n - 1, visited) || HasTenantField(ms[n - 1], visited))
  }

  // ----- what the walk reaches -----

  /** The tenant ids in reach: their slots, and whether a repeated one is among them. */
  datatype Reach = Reach(slots: set<nat>, repeated: bool) {
    function Plus(other: Reach): Reach { Reach(slots + other.slots, repeated || other.repeated) }
  }

  const NOTHING := Reach({}, false)

  /** Over paths on which no message type repeats, starting outside `visited`. */
  function Reached(m: Message, visited: set<string>): Reach
    decreases m, 1
  {
    if !m.valid || m.name in visited then NOTHING else FieldsReached(m.fields, |m.fields|, visited + {m.name})
  }

  function FieldsReached(fields: seq<Field>, n: nat, visited: set<string>): Reach
    requires n <= |fields|
    decreases fields, n
  {
    if n == 0 then NOTHING else FieldsReached(fields, n - 1, visited).Plus(FieldReached(fields[n - 1], visited))
  }

  function FieldReached(f: Field, visited: set<string>): Reach
    decreases f, 1
  {
    if f.name == TENANT_FIELD then
      match f.content
      case Int64(slot) => Reach({slot}, false)
      case Int64List => Reach({}, true)
      case _ => NOTHING
    else
      match f.content
      case Single(Some(m)) => Reached(m, visited)
      case Items(ms) => AllReached(ms, |ms|, visited)
      case Entries(ms) => AllReached(ms, |ms|, visited)
      case _ => NOTHING
  }

  function AllReached(ms: seq<Message>, n: nat, visited: set<string>): Reach
    requires n <= |ms|
    decreases ms, n
  {
    if n == 0 then NOTHING else AllReached(ms, n - 1, visited).Plus(Reached(ms[n - 1], visited))
  }

  // ----- the program -----

  class TenantWalk {
    var cells: Cells
    var visited: set<string>

    constructor (cells: Cells)
      ensures this.cells == cells && visited == {}
    {
      this.cells := cells;
      visited := {};
    }

    method ApplyTenantId(slot: nat, c: Caller) returns (error: Option<Error>)
      modifies this`cells
      ensures Outcome(cells, error) == ApplyId(old(cells), slot, c)
    {
      var cell := Look(cells, slot);
      if c.defaultTenant {
        return None;
      }
      if c.tenantId <= 0 {
        return Some(InvalidTenant);
      }
      if cell.tracksPresence && cell.present && cell.value == 0 {
        return Some(ZeroTenant);
      }
      if cell.value < 0 {
        return None;
      }
      if cell.value == 0 {
        cells := cells[slot := cell.(value := c.tenantId, present := true)];
        return None;
      }
      if cell.value != c.tenantId {
        return Some(ForeignTenant);
      }
      return None;
    }

    method ApplyTenantScope(m: Message, c: Caller) returns (error: Option<Error>)
      modifies this
      ensures Outcome(cells, error) == ApplyMessage(m, old(cells), c, old(visited))
      ensures visited == old(visited)
      decreases m
    {
      if !m.valid || m.name in visited {
        return None;
      }
      visited := visited + {m.name};
      var fields := m.fields;
      for i := 0 to |fields|
        invariant visited == old(visited) + {m.name}
        invariant Outcome(cells, None) == ApplyFields(fields, i, old(cells), c, visited)
      {
        error := ApplyFieldScope(fields[i], c);
        if error.Some? {
          ApplyStops(fields, i + 1, old(cells), c, visited);
          visited := visited - {m.name};
          return;
        }
      }
      visited := visited - {m.name};
      return None;
    }

    /** The body of the loop over the fields. */
    method ApplyFieldScope(f: Field, c: Caller) returns (error: Option<Error>)
      modifies this
      ensures Outcome(cells, error) == ApplyField(f, old(cells), c, old(visited))
      ensures visited == old(visited)
      decreases f
    {
      if f.name == TENANT_FIELD {
        if f.content.Int64List? {
          return Some(Panic);
        }
        if !f.content.Int64? {
          return None;
        }
        error := ApplyTenantId(f.content.slot, c);
        return;
      }
      if f.content.Entries? || f.content.Items? {
        var ms := if f.content.Entries? then f.content.values else f.content.items;
        for i := 0 to |ms|
          invariant visited == old(visited)
          invariant Outcome(cells, None) == ApplyAll(ms, i, old(cells), c, visited)
        {
          error := ApplyTenantScope(ms[i], c);
          if error.Some? {
            ApplyAllStops(ms, i + 1, old(cells), c, visited);
            return;
          }
        }
        return None;
      }
      if f.content.Single? && f.content.message.Some? {
        error := ApplyTenantScope(f.content.message.value, c);
        return;
      }
      return None;
    }

    /** The middleware: the walk runs only if some field needs it; a request without an identity is refused then. */
    method Handle(m: Message, identity: Option<Caller>) returns (passed: bool)
      modifies this
      ensures !NeedsTenant(m) ==> passed && cells == old(cells)
      ensures NeedsTenant(m) ==>
                (passed <==> identity.Some? && ApplyMessage(m, old(cells), identity.value, {}).error.None?)
      ensures NeedsTenant(m) && identity.Some? ==> cells == ApplyMessage(m, old(cells), identity.value, {}).cells
      ensures identity.None? ==> cells == old(cells)
    {
      HasTenantFieldIff(m);
      if !HasTenantField(m, {}) {
        return true;
      }
      if identity.None? {
        return false;
      }
      visited := {};
      var error := ApplyTenantScope(m, identity.value);
      return error.None?;
    }
  }

  lemma {:induction false} ApplyStops(fields: seq<Field>, n: nat, cells: Cells, c: Caller, visited: set<string>)
    requires n <= |fields| && ApplyFields(fields, n, cells, c, visited).error.Some?
    ensures ApplyFields(fields, |fields|, cells, c, visited) == ApplyFields(fields, n, cells, c, visited)
    decreases |fields| - n
  {
    if n < |fields| {
      ApplyStops(fields, n + 1, cells, c, visited);
    }
  }

  lemma {:induction false} ApplyAllStops(ms: seq<Message>, n: nat, cells: Cells, c: Caller, visited: set<string>)
    requires n <= |ms| && ApplyAll(ms, n, cells, c, visited).error.Some?
    ensures ApplyAll(ms, |ms|, cells, c, visited) == ApplyAll(ms, n, cells, c, visited)
    decreases |ms| - n
  {
    if n < |ms| {
      ApplyAllStops(ms, n + 1, cells, c, visited);
    }
  }

  // ----- the outcome by what is reached -----

  /** A value the caller may pass: unset, negative, or the caller's own tenant. */
  predicate Fits(cell: Cell, c: Caller) {
    !(cell.tracksPresence && cell.present && cell.value == 0) && (cell.value <= 0 || cell.value == c.tenantId)
  }

  /** Unset becomes the caller's tenant, everything else stays. */
  function Filled(cell: Cell, c: Caller): Cell {
    if cell.value == 0 then cell.(value := c.tenantId, present := true) else cell
  }

  ghost predicate Accepts(cells: Cells, c: Caller, r: Reach) {
    && !r.repeated
    && (c.defaultTenant || r.slots == {} || c.tenantId > 0)
    && (c.defaultTenant || forall slot :: slot in r.slots ==> Fits(Look(cells, slot), c))
  }

  ghost predicate FilledIn(cells: Cells, c: Caller, r: Reach, after: Cells) {
    forall slot :: Look(after, slot) ==
      if slot in r.slots && !c.defaultTenant then Filled(Look(cells, slot), c) else Look(cells, slot)
  }

  /** Success or not, a slot keeps its cell unless it is in reach and was unset. */
  ghost predicate OnlyFills(cells: Cells, c: Caller, r: Reach, after: Cells) {
    forall slot :: Look(after, slot) == Look(cells, slot) ||
      (slot in r.slots && !c.defaultTenant && Look(cells, slot).value == 0 &&
          Look(after, slot) == Filled(Look(cells, slot), c))
  }

  /** The outcome is decided by the slots in reach and their values alone. */
  ghost predicate Decides(cells: Cells, c: Caller, r: Reach, o: Outcome) {
    && (o.error.None? <==> Accepts(cells, c, r))
    && (o.error.None? ==> FilledIn(cells, c, r, o.cells))
    && OnlyFills(cells, c, r, o.cells)
  }

  lemma {:induction false} DecidesThen(cells: Cells, c: Caller, r1: Reach, o1: Outcome, r2: Reach, o2: Outcome)
    requires Decides(cells, c, r1, o1)
    requires if o1.error.Some? then o2 == o1 else Decides(o1.cells, c, r2, o2)
    ensures Decides(cells, c, r1.Plus(r2), o2)
  {
    if o1.error.None? {
      if !c.defaultTenant {
        forall slot | slot in r2.slots
          ensures Fits(Look(o1.cells, slot), c) <==> slot in r1.slots || Fits(Look(cells, slot), c)
        {
        }
      }
    }
  }

  lemma {:induction false} IdDecides(cells: Cells, slot: nat, c: Caller)
    ensures Decides(cells, c, Reach({slot}, false), ApplyId(cells, slot, c))
  {
  }

  lemma {:induction false} NothingDecides(cells: Cells, c: Caller)
    ensures Decides(cells, c, NOTHING, Outcome(cells, None))
  {
  }

  lemma {:induction false} MessageDecides(m: Message, cells: Cells, c: Caller, visited: set<string>)
    ensures Decides(cells, c, Reached(m, visited), ApplyMessage(m, cells, c, visited))
    decreases m, 1
  {
    hide Decides;
    if !m.valid || m.name in visited {
      NothingDecides(cells, c);
    } else {
      FieldsDecide(m.fields, |m.fields|, cells, c, visited + {m.name});
    }
  }

  lemma {:induction false} FieldsDecide(fields: seq<Field>, n: nat, cells: Cells, c: Caller, visited: set<string>)
    requires n <= |fields|
    ensures Decides(cells, c, FieldsReached(fields, n, visited), ApplyFields(fields, n, cells, c, visited))
    decreases fields, n
  {
    hide Decides;
    if n == 0 {
      NothingDecides(cells, c);
    } else {
      FieldsDecide(fields, n - 1, cells, c, visited);
      var before := ApplyFields(fields, n - 1, cells, c, visited);
      FieldDecides(fields[n - 1], before.cells, c, visited);
      DecidesThen(cells, c, FieldsReached(fields, n - 1, visited), before,
                  FieldReached(fields[n - 1], visited), ApplyFields(fields, n, cells, c, visited));
    }
  }

  lemma {:induction false} FieldDecides(f: Field, cells: Cells, c: Caller, visited: set<string>)
    ensures Decides(cells, c, FieldReached(f, visited), ApplyField(f, cells, c, visited))
    decreases f, 1
  {
    hide Decides;
    NothingDecides(cells, c);
    if f.name == TENANT_FIELD {
      match f.content
      case Int64(slot) => IdDecides(cells, slot, c);
      case Int64List => RepeatedDecides(cells, c);
      case _ =>
    } else {
      match f.content
      case Single(Some(m)) => MessageDecides(m, cells, c, visited);
      case Items(ms) => AllDecide(ms, |ms|, cells, c, visited);
      case Entries(ms) => AllDecide(ms, |ms|, cells, c, visited);
      case _ =>
    }
  }

  lemma {:induction false} AllDecide(ms: seq<Message>, n: nat, cells: Cells, c: Caller, visited: set<string>)
    requires n <= |ms|
    ensures Decides(cells, c, AllReached(ms, n, visited), ApplyAll(ms, n, cells, c, visited))
    decreases ms, n
  {
    hide Decides;
    if n == 0 {
      NothingDecides(cells, c);
    } else {
      AllDecide(ms, n - 1, cells, c, visited);
      var before := ApplyAll(ms, n - 1, cells, c, visited);
      MessageDecides(ms[n - 1], before.cells, c, visited);
      DecidesThen(cells, c, AllReached(ms, n - 1, visited), before,
                  Reached(ms[n - 1], visited), ApplyAll(ms, n, cells, c, visited));
    }
  }

  lemma {:induction false} RepeatedDecides(cells: Cells, c: Caller)
    ensures Decides(cells, c, Reach({}, true), Outcome(cells, Some(Panic)))
  {
  }

  /** What the walk is for: it passes an ordinary tenant's request just when every id in reach is unset, negative or
      the tenant's own, and then each is the tenant's own or the negative it was; nothing else ever changes. */
  lemma {:induction false} OrdinaryTenantIsConfined(m: Message, cells: Cells, c: Caller)
    requires !c.defaultTenant
    ensures var r, o := Reached(m, {}), ApplyMessage(m, cells, c, {});
            && (o.error.None? <==>
                  !r.repeated && (r.slots == {} || c.tenantId > 0) &&
                  forall slot :: slot in r.slots ==>
                    var cell := Look(cells, slot);
                    cell.value < 0 || cell.value == c.tenantId ||
                    (cell.value == 0 && !(cell.tracksPresence && cell.present)))
            && (o.error.None? ==> forall slot :: slot in r.slots ==>
                  var before := Look(cells, slot);
                  Look(o.cells, slot) ==
                    if before.value == 0 then Cell(c.tenantId, before.tracksPresence, true) else before)
            && (forall slot :: slot !in r.slots || Look(cells, slot).value != 0 ==>
                Look(o.cells, slot) == Look(cells, slot))
  {
    MessageDecides(m, cells, c, {});
  }

  /** The default tenant's request is left as it is, and only a repeated tenant_id stops it. */
  lemma {:induction false} DefaultTenantIsFree(m: Message, cells: Cells, c: Caller)
    requires c.defaultTenant
    ensures var o := ApplyMessage(m, cells, c, {});
            (o.error.None? <==> !Reached(m, {}).repeated) && forall slot :: Look(o.cells, slot) == Look(cells, slot)
  {
    MessageDecides(m, cells, c, {});
  }

  /** Applying the scope again passes and changes nothing. */
  lemma {:induction false} ScopeIsIdempotent(m: Message, cells: Cells, c: Caller)
    requires ApplyMessage(m, cells, c, {}).error.None?
    ensures var once := ApplyMessage(m, cells, c, {}).cells;
            var twice := ApplyMessage(m, once, c, {});
            twice.error.None? && forall slot :: Look(twice.cells, slot) == Look(once, slot)
  {
    MessageDecides(m, cells, c, {});
    var once := ApplyMessage(m, cells, c, {}).cells;
    MessageDecides(m, once, c, {});
    hide ApplyMessage, Reached;
    assert Accepts(once, c, Reached(m, {}));
  }

  // ----- which refusal -----

  /** The tenant ids in reach, in the order of the walk. */
  function IdsInOrder(m: Message, visited: set<string>): seq<Content>
    decreases m, 1
  {
    if !m.valid || m.name in visited then [] else FieldsInOrder(m.fields, |m.fields|, visited + {m.name})
  }

  function FieldsInOrder(fields: seq<Field>, n: nat, visited: set<string>): seq<Content>
    requires n <= |fields|
    decreases fields, n
  {
    if n == 0 then [] else FieldsInOrder(fields, n - 1, visited) + FieldInOrder(fields[n - 1], visited)
  }

  function FieldInOrder(f: Field, visited: set<string>): seq<Content>
    decreases f, 1
  {
    match f.content
    case Int64(_) => if f.name == TENANT_FIELD then [f.content] else []
    case Int64List => if f.name == TENANT_FIELD then [f.content] else []
    case Single(Some(m)) => if f.name == TENANT_FIELD then [] else IdsInOrder(m, visited)
    case Items(ms) => if f.name == TENANT_FIELD then [] else AllInOrder(ms, |ms|, visited)
    case Entries(ms) => if f.name == TENANT_FIELD then [] else AllInOrder(ms, |ms|, visited)
    case _ => []
  }

  function AllInOrder(ms: seq<Message>, n: nat, visited: set<string>): seq<Content>
    requires n <= |ms|
    decreases ms, n
  {
    if n == 0 then [] else AllInOrder(ms, n - 1, visited) + IdsInOrder(ms[n - 1], visited)
  }

  /** What an id is refused for by itself, on what it holds before the walk. */
  function RefusalOf(cells: Cells, c: Caller, x: Content): Option<Error> {
    match x
    case Int64List => Some(Panic)
    case Int64(slot) =>
      var cell := Look(cells, slot);
      if c.defaultTenant then None
      else if c.tenantId <= 0 then Some(InvalidTenant)
      else if cell.value == 0 && cell.tracksPresence && cell.present then Some(ZeroTenant)
      else if cell.value > 0 && cell.value != c.tenantId then Some(ForeignTenant)
      else None
    case _ => None
  }

  function FirstRefusal(cells: Cells, c: Caller, xs: seq<Content>): Option<Error> {
    if xs == [] then None
    else if RefusalOf(cells, c, xs[0]).Some? then RefusalOf(cells, c, xs[0])
    else FirstRefusal(cells, c, xs[1..])
  }

  lemma {:induction false} FirstRefusalJoin(cells: Cells, c: Caller, xs: seq<Content>, ys: seq<Content>)
    ensures FirstRefusal(cells, c, xs + ys) ==
            if FirstRefusal(cells, c, xs).Some? then FirstRefusal(cells, c, xs) else FirstRefusal(cells, c, ys)
  {
    if xs == [] {
      assert xs + ys == ys;
    } else {
      assert (xs + ys)[1..] == xs[1..] + ys;
      FirstRefusalJoin(cells, c, xs[1..], ys);
    }
  }

  /** No id is refused for anything else after what happened in between. */
  ghost predicate RefusedAlike(before: Cells, after: Cells, c: Caller) {
    forall x :: RefusalOf(after, c, x) == RefusalOf(before, c, x)
  }

  lemma {:induction false} FirstRefusalAlike(before: Cells, after: Cells, c: Caller, xs: seq<Content>)
    requires RefusedAlike(before, after, c)
    ensures FirstRefusal(after, c, xs) == FirstRefusal(before, c, xs)
  {
    hide RefusalOf;
    if xs != [] {
      FirstRefusalAlike(before, after, c, xs[1..]);
    }
  }

  ghost predicate Refuses(cells: Cells, c: Caller, xs: seq<Content>, o: Outcome) {
    o.error == FirstRefusal(cells, c, xs) && (o.error.None? ==> RefusedAlike(cells, o.cells, c))
  }

  lemma {:induction false} RefusesThen(cells: Cells, c: Caller, xs: seq<Content>, o1: Outcome, ys: seq<Content>,
                                       o2: Outcome)
    requires Refuses(cells, c, xs, o1)
    requires if o1.error.Some? then o2 == o1 else Refuses(o1.cells, c, ys, o2)
    ensures Refuses(cells, c, xs + ys, o2)
  {
    hide RefusalOf, FirstRefusal;
    FirstRefusalJoin(cells, c, xs, ys);
    if o1.error.None? {
      FirstRefusalAlike(cells, o1.cells, c, ys);
    }
  }

  lemma {:induction false} IdRefuses(cells: Cells, slot: nat, c: Caller)
    ensures Refuses(cells, c, [Int64(slot)], ApplyId(cells, slot, c))
    ensures Refuses(cells, c, [Int64List], Outcome(cells, Some(Panic)))
    ensures Refuses(cells, c, [], Outcome(cells, None))
  {
    assert [Int64(slot)][1..] == [];
  }

  lemma {:induction false} MessageRefuses(m: Message, cells: Cells, c: Caller, visited: set<string>)
    ensures Refuses(cells, c, IdsInOrder(m, visited), ApplyMessage(m, cells, c, visited))
    decreases m, 1
  {
    hide Refuses;
    IdRefuses(cells, 0, c);
    if m.valid && m.name !in visited {
      FieldsRefuse(m.fields, |m.fields|, cells, c, visited + {m.name});
    }
  }

  lemma {:induction false} FieldsRefuse(fields: seq<Field>, n: nat, cells: Cells, c: Caller, visited: set<string>)
    requires n <= |fields|
    ensures Refuses(cells, c, FieldsInOrder(fields, n, visited), ApplyFields(fields, n, cells, c, visited))
    decreases fields, n
  {
    hide Refuses;
    if n == 0 {
      IdRefuses(cells, 0, c);
    } else {
      var before := ApplyFields(fields, n - 1, cells, c, visited);
      FieldsRefuse(fields, n - 1, cells, c, visited);
      FieldRefuses(fields[n - 1], before.cells, c, visited);
      RefusesThen(cells, c, FieldsInOrder(fields, n - 1, visited), before,
                  FieldInOrder(fields[n - 1], visited), ApplyFields(fields, n, cells, c, visited));
    }
  }

  lemma {:induction false} FieldRefuses(f: Field, cells: Cells, c: Caller, visited: set<string>)
    ensures Refuses(cells, c, FieldInOrder(f, visited), ApplyField(f, cells, c, visited))
    decreases f, 1
  {
    hide Refuses;
    IdRefuses(cells, if f.content.Int64? then f.content.slot else 0, c);
    match f.content
    case Single(Some(m)) => MessageRefuses(m, cells, c, visited);
    case Items(ms) => AllRefuse(ms, |ms|, cells, c, visited);
    case Entries(ms) => AllRefuse(ms, |ms|, cells, c, visited);
    case _ =>
  }

  lemma {:induction false} AllRefuse(ms: seq<Message>, n: nat, cells: Cells, c: Caller, visited: set<string>)
    requires n <= |ms|
    ensures Refuses(cells, c, AllInOrder(ms, n, visited), ApplyAll(ms, n, cells, c, visited))
    decreases ms, n
  {
    hide Refuses;
    if n == 0 {
      IdRefuses(cells, 0, c);
    } else {
      var before := ApplyAll(ms, n - 1, cells, c, visited);
      AllRefuse(ms, n - 1, cells, c, visited);
      MessageRefuses(ms[n - 1], before.cells, c, visited);
      RefusesThen(cells, c, AllInOrder(ms, n - 1, visited), before,
                  IdsInOrder(ms[n - 1], visited), ApplyAll(ms, n, cells, c, visited));
    }
  }

  /** A request is refused for the first id in the order of the walk that is to be refused on what it held at the
      beginning: filling in earlier ids makes no later one pass or fail. */
  lemma {:induction false} RefusalIsTheFirst(m: Message, cells: Cells, c: Caller)
    ensures ApplyMessage(m, cells, c, {}).error == FirstRefusal(cells, c, IdsInOrder(m, {}))
  {
    MessageRefuses(m, cells, c, {});
  }

  // ----- the shortcut -----

  /** A request with no field of the name is left exactly as it is, whoever calls. */
  lemma {:induction false} ShortcutIsSound(m: Message, cells: Cells, c: Caller, visited: set<string>)
    requires !HasTenantField(m, visited)
    ensures ApplyMessage(m, cells, c, visited) == Outcome(cells, None)
    decreases m, 1
  {
    if m.valid && m.name !in visited {
      FieldsShortcut(m.fields, |m.fields|, cells, c, visited + {m.name});
    }
  }

  lemma {:induction false} FieldsShortcut(fields: seq<Field>, n: nat, cells: Cells, c: Caller, visited: set<string>)
    requires n <= |fields| && !FieldsHaveTenant(fields, n, visited)
    ensures ApplyFields(fields, n, cells, c, visited) == Outcome(cells, None)
    decreases fields, n
  {
    if n > 0 {
      FieldsShortcut(fields, n - 1, cells, c, visited);
      FieldShortcut(fields[n - 1], cells, c, visited);
    }
  }

  lemma {:induction false} FieldShortcut(f: Field, cells: Cells, c: Caller, visited: set<string>)
    requires !FieldHasTenant(f, visited)
    ensures ApplyField(f, cells, c, visited) == Outcome(cells, None)
    decreases f, 1
  {
    match f.content
    case Single(Some(m)) => ShortcutIsSound(m, cells, c, visited);
    case Items(ms) => AllShortcut(ms, |ms|, cells, c, visited);
    case Entries(ms) => AllShortcut(ms, |ms|, cells, c, visited);
    case _ =>
  }

  lemma {:induction false} AllShortcut(ms: seq<Message>, n: nat, cells: Cells, c: Caller, visited: set<string>)
    requires n <= |ms| && !AnyHasTenant(ms, n, visited)
    ensures ApplyAll(ms, n, cells, c, visited) == Outcome(cells, None)
    decreases ms, n
  {
    if n > 0 {
      AllShortcut(ms, n - 1, cells, c, visited);
      ShortcutIsSound(ms[n - 1], cells, c, visited);
    }
  }

  // ----- the order of a map -----

  /** The same request but for the order in which its maps are iterated. */
  ghost predicate SameButOrder(a: Message, b: Message)
    decreases a, 0
  {
    && a.valid == b.valid && a.name == b.name && |a.fields| == |b.fields|
    && forall i :: 0 <= i < |a.fields| ==> SameField(a.fields[i], b.fields[i])
  }

  ghost predicate SameField(f: Field, g: Field)
    decreases f
  {
    && f.name == g.name
    && match f.content
       case Single(Some(m)) => g.content.Single? && g.content.message.Some? && SameButOrder(m, g.content.message.value)
       case Items(ms) => g.content.Items? && |ms| == |g.content.items| &&
                         forall i :: 0 <= i < |ms| ==> SameButOrder(ms[i], g.content.items[i])
       case Entries(ms) => g.content.Entries? && SameEntries(ms, g.content.values)
       case other => g.content == other
  }

  ghost predicate SameEntries(xs: seq<Message>, ys: seq<Message>)
    decreases xs, 1
  {
    && (forall x :: x in xs ==> AmongRight(x, ys))
    && (forall y :: y in ys ==> AmongLeft(xs, y))
  }

  ghost predicate AmongRight(x: Message, ys: seq<Message>)
    decreases x, 1
  {
    exists j :: 0 <= j < |ys| && SameButOrder(x, ys[j])
  }

  ghost predicate AmongLeft(xs: seq<Message>, y: Message)
    decreases xs, 0
  {
    exists i :: 0 <= i < |xs| && SameButOrder(xs[i], y)
  }

  ghost predicate Within(r: Reach, bound: Reach) {
    r.slots <= bound.slots && (r.repeated ==> bound.repeated)
  }

  lemma {:induction false} EachWithinAll(ms: seq<Message>, n: nat, i: nat, visited: set<string>)
    requires i < n <= |ms|
    ensures Within(Reached(ms[i], visited), AllReached(ms, n, visited))
  {
    hide Reached;
    if i < n - 1 {
      EachWithinAll(ms, n - 1, i, visited);
    }
  }

  lemma {:induction false} AllWithin(ms: seq<Message>, n: nat, visited: set<string>, bound: Reach)
    requires n <= |ms| && forall i :: 0 <= i < |ms| ==> Within(Reached(ms[i], visited), bound)
    ensures Within(AllReached(ms, n, visited), bound)
  {
    hide Reached;
    if n > 0 {
      AllWithin(ms, n - 1, visited, bound);
    }
  }

  lemma {:induction false} SameReach(a: Message, b: Message, visited: set<string>)
    requires SameButOrder(a, b)
    ensures Reached(a, visited) == Reached(b, visited)
    decreases a, 1
  {
    if a.valid && a.name !in visited {
      SameFieldsReach(a.fields, b.fields, |a.fields|, visited + {a.name});
    }
  }

  lemma {:induction false} SameFieldsReach(xs: seq<Field>, ys: seq<Field>, n: nat, visited: set<string>)
    requires n <= |xs| == |ys| && forall i :: 0 <= i < |xs| ==> SameField(xs[i], ys[i])
    ensures FieldsReached(xs, n, visited) == FieldsReached(ys, n, visited)
    decreases xs, n
  {
    if n > 0 {
      SameFieldsReach(xs, ys, n - 1, visited);
      SameFieldReach(xs[n - 1], ys[n - 1], visited);
    }
  }

  lemma {:induction false} SameFieldReach(f: Field, g: Field, visited: set<string>)
    requires SameField(f, g)
    ensures FieldReached(f, visited) == FieldReached(g, visited)
    decreases f, 1
  {
    hide Reached, AllReached, SameButOrder, SameEntries;
    match f.content
    case Single(Some(m)) => SameReach(m, g.content.message.value, visited);
    case Items(ms) => SameItemsReach(ms, g.content.items, |ms|, visited);
    case Entries(ms) => SameEntriesReach(ms, g.content.values, visited);
    case _ =>
  }

  lemma {:induction false} SameItemsReach(xs: seq<Message>, ys: seq<Message>, n: nat, visited: set<string>)
    requires n <= |xs| == |ys| && forall i :: 0 <= i < |xs| ==> SameButOrder(xs[i], ys[i])
    ensures AllReached(xs, n, visited) == AllReached(ys, n, visited)
    decreases xs, n
  {
    if n > 0 {
      SameItemsReach(xs, ys, n - 1, visited);
      SameReach(xs[n - 1], ys[n - 1], visited);
    }
  }

  lemma {:induction false} SameEntriesReach(xs: seq<Message>, ys: seq<Message>, visited: set<string>)
    requires SameEntries(xs, ys)
    ensures AllReached(xs, |xs|, visited) == AllReached(ys, |ys|, visited)
    decreases xs, 0
  {
    hide Reached, SameButOrder, AllReached;
    forall i | 0 <= i < |xs| ensures Within(Reached(xs[i], visited), AllReached(ys, |ys|, visited)) {
      assert AmongRight(xs[i], ys);
      var j :| 0 <= j < |ys| && SameButOrder(xs[i], ys[j]);
      SameReach(xs[i], ys[j], visited);
      EachWithinAll(ys, |ys|, j, visited);
    }
    forall j | 0 <= j < |ys| ensures Within(Reached(ys[j], visited), AllReached(xs, |xs|, visited)) {
      assert AmongLeft(xs, ys[j]);
      var i :| 0 <= i < |xs| && SameButOrder(xs[i], ys[j]);
      SameReach(xs[i], ys[j], visited);
      EachWithinAll(xs, |xs|, i, visited);
    }
    AllWithin(xs, |xs|, visited, AllReached(ys, |ys|, visited));
    AllWithin(ys, |ys|, visited, AllReached(xs, |xs|, visited));
  }

  /** Whether a request passes, and what its ids are then, does not depend on the order in which its maps are
      iterated. */
  lemma {:induction false} OrderDoesNotMatter(a: Message, b: Message, cells: Cells, c: Caller)
    requires SameButOrder(a, b)
    ensures var x, y := ApplyMessage(a, cells, c, {}), ApplyMessage(b, cells, c, {});
            && (x.error.None? <==> y.error.None?)
            && (x.error.None? ==> forall slot :: Look(x.cells, slot) == Look(y.cells, slot))
  {
    SameReach(a, b, {});
    MessageDecides(a, cells, c, {});
    MessageDecides(b, cells, c, {});
    hide ApplyMessage, Reached, SameButOrder;
  }

  // ----- reach by chains of messages -----

  /** The messages a field leads to. A field of the name leads nowhere. */
  function Beneath(f: Field): seq<Message> {
    if f.name == TENANT_FIELD then []
    else
      match f.content
      case Single(Some(m)) => [m]
      case Items(ms) => ms
      case Entries(ms) => ms
      case _ => []
  }

  ghost predicate IsChild(m: Message, k: Message) {
    exists i :: 0 <= i < |m.fields| && k in Beneath(m.fields[i])
  }

  /** Valid messages, each beneath the one before, no two of one type and none of a type in `visited`. */
  ghost predicate Chain(chain: seq<Message>, visited: set<string>) {
    && (forall i :: 0 <= i < |chain| ==> chain[i].valid && chain[i].name !in visited)
    && (forall i, j :: 0 <= i < j < |chain| ==> chain[i].name != chain[j].name)
    && (forall i, j :: 0 <= i && j == i + 1 && j < |chain| ==> IsChild(chain[i], chain[j]))
  }

  ghost predicate HoldsId(m: Message, x: Content) {
    exists i :: 0 <= i < |m.fields| && m.fields[i] == Field(TENANT_FIELD, x)
  }

  /** `x` is an int64 slot or a repeated int64 in reach. */
  predicate Seen(r: Reach, x: Content) {
    match x
    case Int64(slot) => slot in r.slots
    case Int64List => r.repeated
    case _ => false
  }

  ghost predicate ChainFrom(m: Message, chain: seq<Message>, visited: set<string>) {
    |chain| > 0 && chain[0] == m && Chain(chain, visited)
  }

  ghost predicate ChainTo(m: Message, chain: seq<Message>, x: Content, visited: set<string>) {
    ChainFrom(m, chain, visited) && HoldsId(chain[|chain| - 1], x)
  }

  lemma {:induction false} SeenInSomeField(fields: seq<Field>, n: nat, visited: set<string>, x: Content)
    returns (i: nat)
    requires n <= |fields| && Seen(FieldsReached(fields, n, visited), x)
    ensures i < n && Seen(FieldReached(fields[i], visited), x)
  {
    hide FieldReached;
    if Seen(FieldReached(fields[n - 1], visited), x) {
      i := n - 1;
    } else {
      i := SeenInSomeField(fields, n - 1, visited, x);
    }
  }

  lemma {:induction false} SeenInSomeMessage(ms: seq<Message>, n: nat, visited: set<string>, x: Content)
    returns (i: nat)
    requires n <= |ms| && Seen(AllReached(ms, n, visited), x)
    ensures i < n && Seen(Reached(ms[i], visited), x)
  {
    hide Reached;
    if Seen(Reached(ms[n - 1], visited), x) {
      i := n - 1;
    } else {
      i := SeenInSomeMessage(ms, n - 1, visited, x);
    }
  }

  lemma {:induction false} FieldWithinFields(fields: seq<Field>, n: nat, i: nat, visited: set<string>)
    requires i < n <= |fields|
    ensures Within(FieldReached(fields[i], visited), FieldsReached(fields, n, visited))
  {
    hide FieldReached;
    if i < n - 1 {
      FieldWithinFields(fields, n - 1, i, visited);
    }
  }

  lemma {:induction false} SeenBeneath(f: Field, visited: set<string>, x: Content) returns (k: Message)
    requires f.name != TENANT_FIELD && Seen(FieldReached(f, visited), x)
    ensures k in Beneath(f) && Seen(Reached(k, visited), x)
  {
    hide Reached, AllReached;
    match f.content
    case Single(Some(m)) =>
      k := m;
    case Items(ms) =>
      var i := SeenInSomeMessage(ms, |ms|, visited, x);
      k := ms[i];
    case Entries(ms) =>
      var i := SeenInSomeMessage(ms, |ms|, visited, x);
      k := ms[i];
  }

  lemma {:induction false} BeneathWithinField(f: Field, k: Message, visited: set<string>)
    requires k in Beneath(f)
    ensures Within(Reached(k, visited), FieldReached(f, visited))
  {
    hide Reached, AllReached;
    match f.content
    case Single(Some(m)) =>
    case Items(ms) =>
      var i :| 0 <= i < |ms| && ms[i] == k;
      EachWithinAll(ms, |ms|, i, visited);
    case Entries(ms) =>
      var i :| 0 <= i < |ms| && ms[i] == k;
      EachWithinAll(ms, |ms|, i, visited);
  }

  lemma {:induction false} ChainExtends(m: Message, k: Message, rest: seq<Message>, visited: set<string>)
    requires m.valid && m.name !in visited && IsChild(m, k) && ChainFrom(k, rest, visited + {m.name})
    ensures ChainFrom(m, [m] + rest, visited) && ([m] + rest)[|rest|] == rest[|rest| - 1]
  {
    hide IsChild;
    var chain := [m] + rest;
    forall i, j | 0 <= i && j == i + 1 && j < |chain| ensures IsChild(chain[i], chain[j]) {
      if i > 0 {
        assert IsChild(rest[i - 1], rest[j - 1]);
      }
    }
  }

  lemma {:induction false} SeenByChain(m: Message, visited: set<string>, x: Content) returns (chain: seq<Message>)
    requires Seen(Reached(m, visited), x)
    ensures ChainTo(m, chain, x, visited)
    decreases m
  {
    var within := visited + {m.name};
    var i := SeenInSomeField(m.fields, |m.fields|, within, x);
    var f := m.fields[i];
    if f.name == TENANT_FIELD {
      chain := [m];
      assert f == Field(TENANT_FIELD, x);
    } else {
      var k := SeenBeneath(f, within, x);
      var rest := SeenByChain(k, within, x);
      chain := [m] + rest;
      ChainExtends(m, k, rest, visited);
    }
  }

  lemma {:induction false} ChainIsSeen(m: Message, chain: seq<Message>, visited: set<string>, x: Content)
    requires ChainTo(m, chain, x, visited) && (x.Int64? || x.Int64List?)
    ensures Seen(Reached(m, visited), x)
    decreases |chain|
  {
    hide FieldsReached;
    var within := visited + {m.name};
    if |chain| == 1 {
      var i :| 0 <= i < |m.fields| && m.fields[i] == Field(TENANT_FIELD, x);
      FieldWithinFields(m.fields, |m.fields|, i, within);
    } else {
      var k, rest := chain[1], chain[1..];
      assert IsChild(chain[0], chain[1]);
      ChainShortens(chain, visited);
      ChainIsSeen(k, rest, within, x);
      var i :| 0 <= i < |m.fields| && k in Beneath(m.fields[i]);
      BeneathWithinField(m.fields[i], k, within);
      FieldWithinFields(m.fields, |m.fields|, i, within);
    }
  }

  lemma {:induction false} ChainShortens(chain: seq<Message>, visited: set<string>)
    requires |chain| > 1 && ChainFrom(chain[0], chain, visited)
    ensures ChainFrom(chain[1], chain[1..], visited + {chain[0].name})
  {
    hide IsChild;
    var rest := chain[1..];
    forall i, j | 0 <= i && j == i + 1 && j < |rest| ensures IsChild(rest[i], rest[j]) {
      assert IsChild(chain[i + 1], chain[j + 1]);
    }
  }

  /** A tenant id is in reach just when it lies on a chain of messages from the request on which no type repeats. */
  lemma {:induction false} ReachedIffOnChain(m: Message, x: Content)
    requires x.Int64? || x.Int64List?
    ensures Seen(Reached(m, {}), x) <==> exists chain: seq<Message> :: ChainTo(m, chain, x, {})
  {
    if Seen(Reached(m, {}), x) {
      var chain := SeenByChain(m, {}, x);
    }
    forall chain: seq<Message> | ChainTo(m, chain, x, {}) ensures Seen(Reached(m, {}), x) {
      ChainIsSeen(m, chain, {}, x);
    }
  }

  // ----- what is out of reach -----

  /** Valid messages, each beneath the one before, of whatever types. */
  ghost predicate Path(path: seq<Message>) {
    && (forall i :: 0 <= i < |path| ==> path[i].valid)
    && (forall i, j :: 0 <= i && j == i + 1 && j < |path| ==> IsChild(path[i], path[j]))
  }

  ghost predicate PathTo(m: Message, path: seq<Message>, x: Content) {
    |path| > 0 && path[0] == m && Path(path) && HoldsId(path[|path| - 1], x)
  }

  /** Some message of the path lies below one of its own type. */
  ghost predicate Repeats(path: seq<Message>) {
    exists i, j :: 0 <= i < j < |path| && path[i].name == path[j].name
  }

  /** The id is one of the message's, at whatever depth. */
  ghost predicate HasId(m: Message, x: Content) { exists path: seq<Message> :: PathTo(m, path, x) }

  /** The walk turns back on some path to it. */
  ghost predicate BehindRepeat(m: Message, x: Content) {
    exists path: seq<Message> :: PathTo(m, path, x) && Repeats(path)
  }

  /** The ids of a message are those in reach and those on paths on which a type repeats. */
  lemma {:induction false} IdsAreReachedOrMissed(m: Message, x: Content)
    requires x.Int64? || x.Int64List?
    ensures HasId(m, x) <==> Seen(Reached(m, {}), x) || BehindRepeat(m, x)
  {
    hide Reached, IsChild, HoldsId;
    ReachedIffOnChain(m, x);
    forall path: seq<Message> | PathTo(m, path, x) && !Repeats(path) ensures ChainTo(m, path, x, {}) {
    }
    forall chain: seq<Message> | ChainTo(m, chain, x, {}) ensures PathTo(m, chain, x) {
    }
  }

  /** Every id of a request is in reach exactly if those on a path on which a type repeats also lie on one on which
      none does. */
  lemma {:induction false} EveryIdInReachIff(m: Message)
    ensures (forall x: Content :: (x.Int64? || x.Int64List?) && HasId(m, x) ==> Seen(Reached(m, {}), x))
            <==> forall x: Content :: (x.Int64? || x.Int64List?) && BehindRepeat(m, x) ==>
                   exists chain: seq<Message> :: ChainTo(m, chain, x, {})
  {
    hide Reached, HasId, BehindRepeat, ChainTo;
    forall x: Content | x.Int64? || x.Int64List?
      ensures HasId(m, x) <==> Seen(Reached(m, {}), x) || BehindRepeat(m, x)
      ensures Seen(Reached(m, {}), x) <==> exists chain: seq<Message> :: ChainTo(m, chain, x, {})
    {
      IdsAreReachedOrMissed(m, x);
      ReachedIffOnChain(m, x);
    }
  }

  /** A node of the caller's tenant 1 with a child of the same type that carries tenant 9: the request passes as it
      is. */
  lemma {:induction false} ForeignIdPassesBelowItsType()
    ensures var child := Message(true, "Node", [Field(TENANT_FIELD, Int64(1))]);
            var node := Message(true, "Node", [Field(TENANT_FIELD, Int64(0)), Field("child", Single(Some(child)))]);
            var cells := map[0 := Cell(1, false, true), 1 := Cell(9, false, true)];
            ApplyMessage(node, cells, Caller(false, 1), {}) == Outcome(cells, None) && HasId(node, Int64(1))
  {
    var child := Message(true, "Node", [Field(TENANT_FIELD, Int64(1))]);
    var fields := [Field(TENANT_FIELD, Int64(0)), Field("child", Single(Some(child)))];
    var node := Message(true, "Node", fields);
    var cells := map[0 := Cell(1, false, true), 1 := Cell(9, false, true)];
    var c, visited := Caller(false, 1), {"Node"};
    assert {} + {"Node"} == visited;
    assert ApplyFields(fields, 1, cells, c, visited) == Outcome(cells, None);
    assert ApplyMessage(child, cells, c, visited) == Outcome(cells, None);
    assert ApplyField(fields[1], cells, c, visited) == Outcome(cells, None);
    assert ApplyFields(fields, 2, cells, c, visited) == Outcome(cells, None);
    assert child in Beneath(node.fields[1]);
    assert child.fields[0] == Field(TENANT_FIELD, Int64(1));
    assert PathTo(node, [node, child], Int64(1));
  }

  // ----- when the walk is needed -----

  ghost predicate HoldsField(m: Message) { exists i :: 0 <= i < |m.fields| && m.fields[i].name == "tenant_id" }

  /** Some chain of messages on which no type repeats ends in one with a field of the name, of whatever kind. */
  ghost predicate NeedsTenant(m: Message) {
    exists chain: seq<Message> :: ChainFrom(m, chain, {}) && HoldsField(chain[|chain| - 1])
  }

  lemma {:induction false} SomeFieldHas(fields: seq<Field>, n: nat, visited: set<string>)
    requires n <= |fields|
    ensures FieldsHaveTenant(fields, n, visited) <==> exists i :: 0 <= i < n && FieldHasTenant(fields[i], visited)
  {
    hide FieldHasTenant;
    if n > 0 {
      SomeFieldHas(fields, n - 1, visited);
    }
  }

  lemma {:induction false} SomeMessageHas(ms: seq<Message>, n: nat, visited: set<string>)
    requires n <= |ms|
    ensures AnyHasTenant(ms, n, visited) <==> exists i :: 0 <= i < n && HasTenantField(ms[i], visited)
  {
    hide HasTenantField;
    if n > 0 {
      SomeMessageHas(ms, n - 1, visited);
    }
  }

  lemma {:induction false} FieldHasIff(f: Field, visited: set<string>)
    ensures FieldHasTenant(f, visited) <==>
            f.name == TENANT_FIELD || exists k :: k in Beneath(f) && HasTenantField(k, visited)
  {
    hide HasTenantField, AnyHasTenant;
    match f.content
    case Single(Some(m)) =>
      assert f.name == TENANT_FIELD || m in Beneath(f);
    case Items(ms) => SomeMessageHas(ms, |ms|, visited);
    case Entries(ms) => SomeMessageHas(ms, |ms|, visited);
    case _ =>
  }

  lemma {:induction false} HasFieldChain(m: Message, visited: set<string>) returns (chain: seq<Message>)
    requires HasTenantField(m, visited)
    ensures ChainFrom(m, chain, visited) && HoldsField(chain[|chain| - 1])
    decreases m
  {
    hide HoldsField, FieldHasTenant;
    var within := visited + {m.name};
    SomeFieldHas(m.fields, |m.fields|, within);
    var i :| 0 <= i < |m.fields| && FieldHasTenant(m.fields[i], within);
    FieldHasIff(m.fields[i], within);
    if m.fields[i].name == TENANT_FIELD {
      chain := [m];
      HoldsItsField(m, i);
    } else {
      var k :| k in Beneath(m.fields[i]) && HasTenantField(k, within);
      var rest := HasFieldChain(k, within);
      chain := [m] + rest;
      ChainExtends(m, k, rest, visited);
    }
  }

  lemma {:induction false} HoldsItsField(m: Message, i: nat)
    requires i < |m.fields| && m.fields[i].name == TENANT_FIELD
    ensures HoldsField(m)
  {
  }

  lemma {:induction false} FieldChainIsFound(m: Message, chain: seq<Message>, visited: set<string>)
    requires ChainFrom(m, chain, visited) && HoldsField(chain[|chain| - 1])
    ensures HasTenantField(m, visited)
    decreases |chain|
  {
    hide FieldHasTenant, FieldsHaveTenant;
    var within := visited + {m.name};
    var i: nat;
    if |chain| == 1 {
      i :| i < |m.fields| && m.fields[i].name == TENANT_FIELD;
    } else {
      assert IsChild(chain[0], chain[1]);
      i :| i < |m.fields| && chain[1] in Beneath(m.fields[i]);
      ChainShortens(chain, visited);
      FieldChainIsFound(chain[1], chain[1..], within);
    }
    FieldHasIff(m.fields[i], within);
    SomeFieldHas(m.fields, |m.fields|, within);
  }

  /** The shortcut looks for such a chain, no more and no less. */
  lemma {:induction false} HasTenantFieldIff(m: Message)
    ensures HasTenantField(m, {}) <==> NeedsTenant(m)
  {
    if HasTenantField(m, {}) {
      var chain := HasFieldChain(m, {});
    }
    forall chain: seq<Message> | ChainFrom(m, chain, {}) && HoldsField(chain[|chain| - 1])
      ensures HasTenantField(m, {})
    {
      FieldChainIsFound(m, chain, {});
    }
  }
}
