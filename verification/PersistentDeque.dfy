/**
 The deque's client code: a shared table object, one PersistentDeque per client, and the Element
 that carries the client's open transaction. Each method is proved to be a step of DequeTable.
 */
module PersistentDeque {
  import opened DequeTable

  /** The table in the database, shared by all clients. */
  class Rows {
    var rows: map<Pos, Data>
    var nextSeq: int
    var held: map<Client, Pos>

    ghost function View(): Table
      reads this
    {
      Table(rows, nextSeq, held)
    }

    constructor ()
      ensures View() == NEW_TABLE
    {
      rows, nextSeq, held := map[], 1, map[];
    }
  }

  /** The transaction an element carries: none, still open, or already committed. */
  datatype Work = Missing | Open | Committed

  class Element {
    const table: Rows
    const c: Client
    var w: Work
    var pos: Pos
    var data: Data

    /** An open element is the client's lock on its row, whose data it carries. */
    ghost predicate Valid()
      reads this, table
    {
      Good(table.View()) && (w.Open? ==> c in table.held && table.held[c] == pos && table.rows[pos] == data)
    }

    constructor Empty(table: Rows, c: Client)
      ensures this.table == table && this.c == c && w == Missing
    {
      this.table, this.c, w, pos, data := table, c, Missing, 0, "";
    }

    constructor Select(table: Rows, c: Client, pos: Pos, data: Data)
      ensures this.table == table && this.c == c && w == Open && this.pos == pos && this.data == data
    {
      this.table, this.c, w, this.pos, this.data := table, c, Open, pos, data;
    }

    /** Deletes the row and commits; a second call, or one on an empty element, fails. */
    method Pop() returns (ok: bool)
      requires Valid()
      modifies this`w, table
      ensures Valid() && w == if ok then Committed else old(w)
      ensures ok == old(w).Open?
      ensures if ok then Outcome(table.View(), Done) == Do(old(table.View()), DequeTable.Pop(c)) && pos !in table.rows
              else table.View() == old(table.View())
    {
      if w.Missing? { return false; }
      if w.Committed? { return false; }
      StepGood(table.View(), DequeTable.Pop(c));
      table.rows := table.rows - {pos};
      table.held := table.held - {c};
      w := Committed;
      ok := true;
    }

    /** Ends the transaction without committing; the row stays where it was. Abandoning the element
        does the same. */
    method Release()
      requires Valid()
      modifies this`w, table
      ensures Valid() && w == Missing
      ensures if old(w).Open? then Outcome(table.View(), Done) == Do(old(table.View()), DequeTable.Release(c))
              else table.View() == old(table.View())
    {
      if w.Open? {
        StepGood(table.View(), DequeTable.Release(c));
        table.held := table.held - {c};
      }
      w := Missing;
    }
  }

  class PersistentDeque {
    const table: Rows
    const c: Client

    constructor (table: Rows, c: Client)
      ensures this.table == table && this.c == c
    {
      this.table, this.c := table, c;
    }

    /** INSERT in a transaction of its own: on the client's connection it fails while an element is
        open there. */
    method Push(at: End, data: Data, accepted: bool, burn: bool) returns (ok: bool)
      requires Good(table.View())
      modifies table
      ensures Good(table.View())
      ensures Outcome(table.View(), if ok then Done else Failed)
              == Do(old(table.View()), DequeTable.Push(c, at, data, accepted, burn))
    {
      StepGood(table.View(), DequeTable.Push(c, at, data, accepted, burn));
      if c in table.held { return false; }
      if !accepted {
        if burn { table.nextSeq := table.nextSeq + 1; }
        return false;
      }
      table.rows := table.rows[PosOf(table.nextSeq, at) := data];
      table.nextSeq := table.nextSeq + 1;
      ok := true;
    }

    /** Back (Front): locks the last (first) row nobody has locked; with pop, also deletes it. */
    method Take(at: End, pop: bool) returns (e: Element, ok: bool)
      requires Good(table.View())
      modifies table
      ensures fresh(e) && e.table == table && e.c == c && e.Valid()
      ensures var held := Do(old(table.View()), Hold(c, at));
              && ok == held.reply.Item?
              && (ok ==> e.data == held.reply.data && e.w == if pop then Committed else Open)
              && (!ok ==> e.w == Missing)
              && table.View() == if ok && pop then Do(held.table, DequeTable.Pop(c)).table else held.table
    {
      StepGood(table.View(), Hold(c, at));
      if c in table.held {
        e := new Element.Empty(table, c);
        return e, false;
      }
      var free := set p | p in table.rows && p !in table.held.Values;
      assert free == Unlocked(table.View());
      if !(exists p :: p in free) {
        e := new Element.Empty(table, c);
        return e, false;
      }
      var p := Outermost(free, at);
      e := new Element.Select(table, c, p, table.rows[p]);
      table.held := table.held[c := p];
      ok := true;
      if pop {
        ok := e.Pop();
      }
    }

    method Size() returns (n: nat)
      ensures n == |table.rows|
    {
      n := |table.rows|;
    }
  }
}
