/** The data shapes shared by the board and the printer: a 2D position, the
    four paper variants, a card record and the drag session. */
module Types {

  datatype Option<+T> = None | Some(value: T)

  /** An (x, y) pair in canvas pixels; used for card placement and for the
      pointer-to-card offset of a drag. */
  datatype Position = Position(x: real, y: real)
  {
    function Plus(d: Position): (r: Position)
      ensures r.x - x == d.x && r.y - y == d.y
    {
      Position(x + d.x, y + d.y)
    }

    function Minus(d: Position): (r: Position)
      ensures r.Plus(d) == this
    {
      Position(x - d.x, y - d.y)
    }
  }

  const Origin := Position(0.0, 0.0)

  /** The paper styles a card may be printed on. */
  datatype Variant = Standard | Aged | Blueprint | Pink

  /** The name the source uses for each variant in its string union type. */
  function VariantName(v: Variant): (r: string)
    ensures r in {"standard", "aged", "blueprint", "pink"}
  {
    match v
    case Standard => "standard"
    case Aged => "aged"
    case Blueprint => "blueprint"
    case Pink => "pink"
  }

  /** Reads a variant name back; any other string is not a variant. */
  function ParseVariant(s: string): (r: Option<Variant>)
  {
    if s == "standard" then Some(Standard)
    else if s == "aged" then Some(Aged)
    else if s == "blueprint" then Some(Blueprint)
    else if s == "pink" then Some(Pink)
    else None
  }

  /** The variant names are exactly the four strings of the union type, and
      each names one variant. */
  lemma VariantNamesRoundTrip(v: Variant, s: string)
    ensures ParseVariant(VariantName(v)) == Some(v)
    ensures ParseVariant(s).Some? <==> s in {"standard", "aged", "blueprint", "pink"}
    ensures ParseVariant(s).Some? ==> VariantName(ParseVariant(s).value) == s
  {
  }

  /** A printed card: exactly the eight fields of the stored record. */
  datatype Card = Card(
    id: string,
    text: string,
    position: Position,
    rotation: real,
    zIndex: int,
    variant: Variant,
    timestamp: string,
    time: string)

  /** The drag session as the board uses it: idle, or dragging the card with
      the given id, remembering the pointer-minus-card offset of the pick-up. */
  datatype Drag = Idle | Dragging(cardId: string, offset: Position)

  /** The drag state record exactly as it is stored: a flag, a nullable card id
      and an offset. */
  datatype DragRecord = DragRecord(isDragging: bool, cardId: Option<string>, offset: Position)

  /** The record written for a drag session; the idle record is
      `{isDragging: false, cardId: null, offset: (0, 0)}`. */
  function ToRecord(d: Drag): (r: DragRecord)
    ensures r.isDragging <==> r.cardId.Some?
    ensures d.Idle? ==> r == DragRecord(false, None, Origin)
    ensures d.Dragging? ==> r.cardId == Some(d.cardId) && r.offset == d.offset
  {
    match d
    case Idle => DragRecord(false, None, Origin)
    case Dragging(id, off) => DragRecord(true, Some(id), off)
  }

  /** The records the board ever writes: the flag is set exactly when an id is
      present, and an idle record has the zero offset. */
  predicate Coherent(r: DragRecord)
  {
    (r.isDragging <==> r.cardId.Some?) && (!r.isDragging ==> r.offset == Origin)
  }

  function FromRecord(r: DragRecord): (d: Drag)
  {
    if r.isDragging && r.cardId.Some? then Dragging(r.cardId.value, r.offset) else Idle
  }

  /** The two-state session and the three-field record carry the same
      information: every session survives the round trip, and every coherent
      record is the image of exactly the session read back from it. */
  lemma DragRecordRoundTrip(d: Drag, r: DragRecord)
    ensures FromRecord(ToRecord(d)) == d
    ensures Coherent(ToRecord(d))
    ensures Coherent(r) ==> ToRecord(FromRecord(r)) == r
  {
  }
}
