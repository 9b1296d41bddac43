/** The card board: the list of printed cards, the stacking counter, the drag
    session and the storage slot that mirrors the list. The list rebuilding
    the handlers do (append, filter by id, update by id) is given as pure
    functions with their properties; the handlers themselves are the methods
    of class `Board`. */
module App {
  import opened Types
  import opened JsText
  import opened PrinterComponent

  /** The counter's value on an empty board. */
  const InitialMaxZIndex := 1

  /** The rendered width of a card, in pixels (components/Card.tsx:43). */
  const CardWidth := 320.0

  /** The horizontal inset of the spawn point from the window's midline. */
  const SpawnInset := 160.0

  /** How far above the bottom edge of the window a card is spawned. */
  const SpawnRise := 350.0

  /** What the environment supplies to a print: a fresh id (a random UUID),
      the window size, a draw of `Math.random()` and the formatted date and
      time of the moment of printing. */
  datatype PrintEnv = PrintEnv(
    freshId: string,
    width: int,
    height: int,
    random: real,
    date: string,
    time: string)

  /** `Math.random()` draws from [0, 1). */
  predicate RandomInRange(env: PrintEnv)
  {
    0.0 <= env.random < 1.0
  }

  /** The fixed launch position: the card's centre is on the window's vertical
      midline, and its top edge sits 350 pixels above the bottom edge. */
  function SpawnPoint(width: int, height: int): (p: Position)
    ensures p.x + CardWidth / 2.0 == width as real / 2.0
    ensures p.x == width as real - (p.x + CardWidth)
    ensures height as real - p.y == SpawnRise
  {
    Position(width as real / 2.0 - SpawnInset, height as real - SpawnRise)
  }

  /** The decorative tilt `Math.random() * 6 - 3`, in degrees. */
  function Rotation(random: real): (r: real)
    requires 0.0 <= random < 1.0
    ensures -3.0 <= r < 3.0
  {
    random * 6.0 - 3.0
  }

  /** The card a print creates when the counter stands at `maxZIndex`. */
  function NewCard(text: string, variant: Variant, env: PrintEnv, maxZIndex: int): (c: Card)
    requires RandomInRange(env)
    ensures -3.0 <= c.rotation < 3.0
    ensures c.zIndex > maxZIndex
  {
    Card(env.freshId, text, SpawnPoint(env.width, env.height), Rotation(env.random),
         maxZIndex + 1, variant, env.date, env.time)
  }

  function Ids(cards: seq<Card>): set<string>
  {
    set c | c in cards :: c.id
  }

  /** No two cards on the board share an id. */
  predicate UniqueIds(cards: seq<Card>)
  {
    forall i, j :: 0 <= i < j < |cards| ==> cards[i].id != cards[j].id
  }

  /** The stacking invariant: no card is stacked above the counter. */
  predicate StackBounded(cards: seq<Card>, maxZIndex: int)
  {
    forall i :: 0 <= i < |cards| ==> cards[i].zIndex <= maxZIndex
  }

  /** `a` is `b` with some elements dropped, the rest kept in order. */
  predicate Subseq(a: seq<Card>, b: seq<Card>)
  {
    a == [] || (b != [] && ((a[0] == b[0] && Subseq(a[1..], b[1..])) || Subseq(a, b[1..])))
  }

  /** `cards.find(c => c.id === id)`, as the index of the first card with that
      id, or none when no card has it. */
  function FindIndex(cards: seq<Card>, id: string): (r: Option<nat>)
    ensures r.None? <==> id !in Ids(cards)
    ensures r.Some? ==> r.value < |cards| && cards[r.value].id == id
    ensures r.Some? ==> forall j :: 0 <= j < r.value ==> cards[j].id != id
  {
    if cards == [] then None
    else if cards[0].id == id then Some(0)
    else
      assert Ids(cards) == {cards[0].id} + Ids(cards[1..]);
      match FindIndex(cards[1..], id)
      case None => None
      case Some(k) => Some(k + 1)
  }

  /** `cards.filter(c => c.id !== id)`: every card with that id is gone and
      every other card stays. */
  function Without(cards: seq<Card>, id: string): (r: seq<Card>)
    ensures forall c :: c in r <==> c in cards && c.id != id
  {
    if cards == [] then []
    else
      var rest := Without(cards[1..], id);
      assert cards == [cards[0]] + cards[1..];
      if cards[0].id == id then rest else [cards[0]] + rest
  }

  /** Deleting keeps the remaining cards in their original relative order. */
  lemma {:induction false} WithoutKeepsOrder(cards: seq<Card>, id: string)
    ensures Subseq(Without(cards, id), cards)
  {
    if cards != [] {
      var rest := Without(cards[1..], id);
      WithoutKeepsOrder(cards[1..], id);
      if cards[0].id != id {
        assert ([cards[0]] + rest)[1..] == rest;
      }
    }
  }

  /** The bring-to-front map: every card with that id gets stacking order `z`,
      every other field and every other card stay as they were, in place. */
  function Raised(cards: seq<Card>, id: string, z: int): (r: seq<Card>)
    ensures |r| == |cards|
    ensures forall i :: 0 <= i < |cards| ==>
              r[i] == if cards[i].id == id then cards[i].(zIndex := z) else cards[i]
  {
    if cards == [] then []
    else [if cards[0].id == id then cards[0].(zIndex := z) else cards[0]] + Raised(cards[1..], id, z)
  }

  /** The drag map: every card with that id is placed at `p`, every other field
      and every other card stay as they were, in place. */
  function Moved(cards: seq<Card>, id: string, p: Position): (r: seq<Card>)
    ensures |r| == |cards|
    ensures forall i :: 0 <= i < |cards| ==>
              r[i] == if cards[i].id == id then cards[i].(position := p) else cards[i]
  {
    if cards == [] then []
    else [if cards[0].id == id then cards[0].(position := p) else cards[0]] + Moved(cards[1..], id, p)
  }

  /** Deleting keeps every other card as often as it was there. */
  lemma {:induction false} WithoutCounts(cards: seq<Card>, id: string)
    ensures forall c :: multiset(Without(cards, id))[c] == if c.id == id then 0 else multiset(cards)[c]
  {
    if cards != [] {
      WithoutCounts(cards[1..], id);
      assert cards == [cards[0]] + cards[1..];
      assert multiset(cards) == multiset{cards[0]} + multiset(cards[1..]);
    }
  }

  /** Deleting an id no card has leaves the list as it was. */
  lemma {:induction false} WithoutAbsent(cards: seq<Card>, id: string)
    requires id !in Ids(cards)
    ensures Without(cards, id) == cards
  {
    if cards != [] {
      assert cards[0] in cards;
      assert Ids(cards[1..]) <= Ids(cards);
      WithoutAbsent(cards[1..], id);
      assert cards == [cards[0]] + cards[1..];
    }
  }

  /** Deleting twice is deleting once. */
  lemma WithoutIdempotent(cards: seq<Card>, id: string)
    ensures Without(Without(cards, id), id) == Without(cards, id)
  {
    var once := Without(cards, id);
    assert id !in Ids(once);
    WithoutAbsent(once, id);
  }

  /** Two lists that agree on the id at every index have the same ids, and
      one has distinct ids exactly when the other does. */
  lemma SameIdsAt(a: seq<Card>, b: seq<Card>)
    requires |a| == |b| && forall i :: 0 <= i < |a| ==> a[i].id == b[i].id
    ensures Ids(a) == Ids(b)
    ensures UniqueIds(a) <==> UniqueIds(b)
  {
    forall x | x in Ids(a) ensures x in Ids(b) {
      var c :| c in a && c.id == x;
      var i :| 0 <= i < |a| && a[i] == c;
      assert b[i] in b;
    }
    forall x | x in Ids(b) ensures x in Ids(a) {
      var c :| c in b && c.id == x;
      var i :| 0 <= i < |b| && b[i] == c;
      assert a[i] in a;
    }
  }

  /** Bringing to front and moving change no id, so they keep the set of ids
      and keep the ids distinct. */
  lemma UpdatesKeepIds(cards: seq<Card>, id: string, z: int, p: Position)
    ensures Ids(Raised(cards, id, z)) == Ids(cards) && Ids(Moved(cards, id, p)) == Ids(cards)
    ensures UniqueIds(cards) ==> UniqueIds(Raised(cards, id, z)) && UniqueIds(Moved(cards, id, p))
  {
    SameIdsAt(cards, Raised(cards, id, z));
    SameIdsAt(cards, Moved(cards, id, p));
  }

  /** A list has distinct ids exactly when its tail does and its head's id is
      not among the tail's. */
  lemma ConsUnique(cards: seq<Card>)
    requires cards != []
    ensures UniqueIds(cards) <==> UniqueIds(cards[1..]) && cards[0].id !in Ids(cards[1..])
  {
    var tail := cards[1..];
    if UniqueIds(cards) {
      forall i, j | 0 <= i < j < |tail| ensures tail[i].id != tail[j].id {
        assert tail[i] == cards[i + 1] && tail[j] == cards[j + 1];
      }
    }
    if UniqueIds(tail) && cards[0].id !in Ids(tail) {
      forall i, j | 0 <= i < j < |cards| ensures cards[i].id != cards[j].id {
        assert cards[j] == tail[j - 1] && cards[j] in tail;
        if 0 < i {
          assert cards[i] == tail[i - 1];
        }
      }
    }
  }

  /** Deleting keeps the ids distinct. */
  lemma {:induction false} WithoutKeepsUnique(cards: seq<Card>, id: string)
    requires UniqueIds(cards)
    ensures UniqueIds(Without(cards, id))
  {
    if cards != [] {
      var tail := cards[1..];
      ConsUnique(cards);
      WithoutKeepsUnique(tail, id);
      var rest := Without(tail, id);
      if cards[0].id != id {
        assert Ids(rest) <= Ids(tail);
        ConsUnique([cards[0]] + rest);
        assert ([cards[0]] + rest)[1..] == rest;
      }
    }
  }

  /** A drag whose card has been deleted moves nothing. A click on the delete
      button does not get here, because its mouse-up has already ended the
      drag before the click fires; the case is a delete triggered from the
      keyboard while the card is being dragged. */
  lemma MoveAfterDelete(cards: seq<Card>, id: string, p: Position)
    ensures Moved(Without(cards, id), id, p) == Without(cards, id)
  {
    var rest := Without(cards, id);
    assert forall i :: 0 <= i < |rest| ==> rest[i] in rest;
  }

  /** A print puts the new card strictly above every card already on the
      board and keeps the stacking invariant. */
  lemma PrintedOnTop(cards: seq<Card>, maxZIndex: int, text: string, variant: Variant, env: PrintEnv)
    requires RandomInRange(env) && StackBounded(cards, maxZIndex)
    ensures var c := NewCard(text, variant, env, maxZIndex);
            StackBounded(cards + [c], maxZIndex + 1)
            && forall i :: 0 <= i < |cards| ==> cards[i].zIndex < c.zIndex
  {
  }

  /** A pick-up puts the card with that id strictly above every other card and
      keeps the stacking invariant. */
  lemma RaisedOnTop(cards: seq<Card>, id: string, maxZIndex: int)
    requires StackBounded(cards, maxZIndex)
    ensures var r := Raised(cards, id, maxZIndex + 1);
            StackBounded(r, maxZIndex + 1)
            && forall i, j :: 0 <= i < |r| && 0 <= j < |r| && r[i].id == id && r[j].id != id
                 ==> r[j].zIndex < r[i].zIndex
  {
  }

  /** Drag fidelity: a card at P picked up with the pointer at Q and then
      moved with the pointer at Q' ends at P + (Q' - Q). */
  lemma DragFidelity(cards: seq<Card>, id: string, z: int, q: Position, q': Position)
    requires FindIndex(cards, id).Some?
    ensures var i := FindIndex(cards, id).value;
            var offset := q.Minus(cards[i].position);
            Moved(Raised(cards, id, z), id, q'.Minus(offset))[i].position
              == cards[i].position.Plus(q'.Minus(q))
  {
  }

  /** The counter is not stored with the cards: a board reloaded with a card
      stacked at 5 restarts the counter at 1, so the invariant fails and the
      next printed card is stacked below the reloaded one. */
  lemma ReloadLosesCounter(env: PrintEnv)
    requires RandomInRange(env)
    ensures var loaded := Loaded(Saved([Card("a", "hello", Origin, 0.0, 5, Standard, "Jan 5, 24", "14:30")]));
            !StackBounded(loaded, InitialMaxZIndex)
            && NewCard("world", Pink, env, InitialMaxZIndex).zIndex < loaded[0].zIndex
  {
    var loaded := Loaded(Saved([Card("a", "hello", Origin, 0.0, 5, Standard, "Jan 5, 24", "14:30")]));
    assert loaded[0].zIndex > InitialMaxZIndex;
  }

  /** The storage entry under the key 'retroCards': nothing stored (or the
      empty string), text that does not parse, or a saved list of cards. */
  datatype Slot = Absent | Unparsable | Saved(cards: seq<Card>)

  /** The cards a mount reads from the slot: the saved list, or an empty board
      when there is no entry or it does not parse. */
  function Loaded(slot: Slot): (cards: seq<Card>)
    ensures slot.Saved? ==> cards == slot.cards
    ensures !slot.Saved? ==> cards == []
  {
    match slot
    case Saved(cs) => cs
    case _ => []
  }

  class Board {
    var cards: seq<Card>
    var maxZIndex: int
    var drag: Drag
    /** The storage slot; each change of `cards` is written through to it. */
    var storage: Slot

    ghost predicate Valid()
      reads this
    {
      storage == Saved(cards)
    }

    /** Window listeners for move and up are attached exactly while dragging. */
    predicate Listening()
      reads this
    {
      drag.Dragging?
    }

    /** Mount: load the saved cards (or stay empty), start the counter at 1 and
      the session idle; the save effect then writes the list back, so a
      malformed entry is replaced by the empty list. */
    constructor (slot: Slot)
      ensures Valid()
      ensures cards == Loaded(slot)
      ensures maxZIndex == InitialMaxZIndex && drag == Idle
    {
      cards := [];
      maxZIndex := InitialMaxZIndex;
      drag := Idle;
      storage := Saved([]);
      if slot.Saved? {
        cards := slot.cards;
        storage := Saved(cards);
      }
    }

    /** handlePrint: append one card at the spawn point, stacked one above the
      counter, and advance the counter. */
    method Print(text: string, variant: Variant, env: PrintEnv)
      requires Valid() && RandomInRange(env) && env.freshId !in Ids(cards)
      modifies this
      ensures Valid()
      ensures cards == old(cards) + [NewCard(text, variant, env, old(maxZIndex))]
      ensures maxZIndex == old(maxZIndex) + 1 && drag == old(drag)
      ensures cards[|cards| - 1].position == SpawnPoint(env.width, env.height)
      ensures cards[|cards| - 1].zIndex == maxZIndex
      ensures StackBounded(old(cards), old(maxZIndex)) ==>
                StackBounded(cards, maxZIndex)
                && forall i :: 0 <= i < |cards| - 1 ==> cards[i].zIndex < cards[|cards| - 1].zIndex
      ensures UniqueIds(old(cards)) ==> UniqueIds(cards)
    {
      var card := NewCard(text, variant, env, maxZIndex);
      if StackBounded(cards, maxZIndex) {
        PrintedOnTop(cards, maxZIndex, text, variant, env);
      }
      assert forall i :: 0 <= i < |cards| ==> cards[i] in cards;
      maxZIndex := maxZIndex + 1;
      cards := cards + [card];
      storage := Saved(cards);
    }

    /** handleDeleteCard: drop every card with that id. The drag session is
      left alone, even when it is dragging that card. */
    method Delete(id: string)
      requires Valid()
      modifies this
      ensures Valid()
      ensures cards == Without(old(cards), id)
      ensures id !in Ids(old(cards)) ==> cards == old(cards)
      ensures maxZIndex == old(maxZIndex) && drag == old(drag)
      ensures UniqueIds(old(cards)) ==> UniqueIds(cards)
    {
      if id !in Ids(cards) {
        WithoutAbsent(cards, id);
      }
      if UniqueIds(cards) {
        WithoutKeepsUnique(cards, id);
      }
      cards := Without(cards, id);
      storage := Saved(cards);
    }

    /** handleMouseDown: on a card that is on the board, bring it to the front
      and start dragging it, remembering where on the card it was grabbed; on
      an id that is not on the board, do nothing at all. */
    method MouseDown(id: string, pointer: Position)
      requires Valid()
      modifies this
      ensures Valid()
      ensures FindIndex(old(cards), id).None? ==>
                cards == old(cards) && maxZIndex == old(maxZIndex) && drag == old(drag)
      ensures FindIndex(old(cards), id).Some? ==>
                var i := FindIndex(old(cards), id).value;
                && maxZIndex == old(maxZIndex) + 1
                && cards == Raised(old(cards), id, maxZIndex)
                && drag == Dragging(id, pointer.Minus(old(cards)[i].position))
      ensures StackBounded(old(cards), old(maxZIndex)) ==> StackBounded(cards, maxZIndex)
      ensures UniqueIds(old(cards)) ==> UniqueIds(cards)
    {
      var found := FindIndex(cards, id);
      if found.None? {
        return;
      }
      var card := cards[found.value];
      var newZ := maxZIndex + 1;
      ghost var before := cards;
      var raised := Raised(cards, id, newZ);
      assert StackBounded(before, maxZIndex) ==> StackBounded(raised, newZ) by {
        if StackBounded(before, maxZIndex) {
          RaisedOnTop(before, id, maxZIndex);
        }
      }
      assert UniqueIds(before) ==> UniqueIds(raised) by {
        UpdatesKeepIds(before, id, newZ, Origin);
      }
      maxZIndex := newZ;
      cards := raised;
      storage := Saved(cards);
      drag := Dragging(id, pointer.Minus(card.position));
    }

    /** handleMouseMove: while dragging a card (and only then), place it at
      the pointer minus the pick-up offset. A session whose id is the empty
      string is ignored, as `!dragState.cardId` is true for it; a session on
      a deleted card finds nothing to move. */
    method MouseMove(pointer: Position)
      requires Valid()
      modifies this
      ensures Valid()
      ensures maxZIndex == old(maxZIndex) && drag == old(drag)
      ensures old(Listening()) && old(drag).cardId != "" ==>
                cards == Moved(old(cards), old(drag).cardId, pointer.Minus(old(drag).offset))
      ensures !old(Listening()) || old(drag).cardId == "" ==> cards == old(cards)
      ensures old(Listening()) && old(drag).cardId !in Ids(old(cards)) ==> cards == old(cards)
      ensures StackBounded(old(cards), old(maxZIndex)) ==> StackBounded(cards, maxZIndex)
      ensures UniqueIds(old(cards)) ==> UniqueIds(cards)
    {
      if !Listening() || drag.cardId == "" {
        return;
      }
      cards := Moved(cards, drag.cardId, pointer.Minus(drag.offset));
      storage := Saved(cards);
    }

    /** handleMouseUp: end the session, wherever the pointer is. When idle the
      listener is not attached and the session is already idle. */
    method MouseUp()
      requires Valid()
      modifies this
      ensures Valid()
      ensures drag == Idle && ToRecord(drag) == DragRecord(false, None, Origin)
      ensures cards == old(cards) && maxZIndex == old(maxZIndex)
    {
      if Listening() {
        drag := Idle;
      }
    }
  }

  /** The PRINT button of the printer panel, whose print handler is the
      board's: a card is printed exactly when the input is not blank, and a
      blank input leaves the board as it was. */
  method PrintButton(printer: Printer, board: Board, env: PrintEnv) returns (printed: bool)
    requires printer.Valid() && board.Valid()
    requires RandomInRange(env) && env.freshId !in Ids(board.cards)
    modifies printer, board
    ensures printer.Valid() && board.Valid()
    ensures printed <==> !AllWhitespace(old(printer.input))
    ensures printed ==>
              board.cards == old(board.cards)
                + [NewCard(old(printer.input), old(printer.selectedVariant), env, old(board.maxZIndex))]
              && board.maxZIndex == old(board.maxZIndex) + 1
              && printer.input == ""
    ensures !printed ==>
              board.cards == old(board.cards) && board.maxZIndex == old(board.maxZIndex)
              && printer.input == old(printer.input)
    ensures board.drag == old(board.drag) && printer.selectedVariant == old(printer.selectedVariant)
    ensures printer.isProcessing == old(printer.isProcessing)
              && printer.pendingVariant == old(printer.pendingVariant)
  {
    PrintDisabledIffGuardRejects(printer.input);
    var request := printer.Submit();
    printed := request.Some?;
    if printed {
      board.Print(request.value.text, request.value.variant, env);
    }
  }

  /** The enhancer's answer to a magic print reaching the board: a card with
      the answer's text and the variant of the click is printed exactly when
      the answer is a non-empty string. */
  method MagicArrives(printer: Printer, board: Board, result: Enhanced, env: PrintEnv)
    returns (printed: bool)
    requires printer.Valid() && board.Valid() && printer.isProcessing
    requires RandomInRange(env) && env.freshId !in Ids(board.cards)
    modifies printer, board
    ensures printer.Valid() && board.Valid() && !printer.isProcessing
    ensures printed <==> result.Resolved? && result.text != ""
    ensures printed ==>
              board.cards == old(board.cards)
                + [NewCard(result.text, old(printer.pendingVariant).value, env, old(board.maxZIndex))]
              && board.maxZIndex == old(board.maxZIndex) + 1
    ensures !printed ==> board.cards == old(board.cards) && board.maxZIndex == old(board.maxZIndex)
    ensures printer.input == if printed then "" else old(printer.input)
    ensures board.drag == old(board.drag) && printer.selectedVariant == old(printer.selectedVariant)
  {
    var request := printer.CompleteMagic(result);
    printed := request.Some?;
    if printed {
      board.Print(request.value.text, request.value.variant, env);
    }
  }

  /** Two prints on a fresh board, reloaded from what was stored. */
  method PrintTwiceAndReload(env1: PrintEnv, env2: PrintEnv)
    requires RandomInRange(env1) && RandomInRange(env2) && env1.freshId != env2.freshId
  {
    var board := new Board(Absent);
    assert board.cards == [];
    board.Print("Hello", Standard, env1);
    board.Print("World", Pink, env2);
    assert |board.cards| == 2;
    assert board.cards[0].id == env1.freshId && board.cards[1].id == env2.freshId;
    assert board.cards[0].zIndex < board.cards[1].zIndex;
    var reloaded := new Board(board.storage);
    assert reloaded.cards == board.cards;
  }

  /** A card at (100, 100) grabbed at (110, 115) and dragged to (200, 150)
      lands at (190, 135); releasing the pointer ends the session. */
  method DragScenario()
  {
    var a := Card("a", "hi", Position(100.0, 100.0), 1.5, 2, Aged, "Jan 5, 24", "14:30");
    var board := new Board(Saved([a]));
    board.MouseDown("a", Position(110.0, 115.0));
    assert board.drag == Dragging("a", Position(10.0, 15.0));
    board.MouseMove(Position(200.0, 150.0));
    assert board.cards[0].position == Position(190.0, 135.0);
    assert board.cards[0].zIndex == 2;
    board.MouseUp();
    board.MouseMove(Position(0.0, 0.0));
    assert board.cards[0].position == Position(190.0, 135.0);
  }
}
