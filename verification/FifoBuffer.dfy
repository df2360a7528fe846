/** The FIFO object of fifo.py, updated in place, against the functions of FifoSpec. */
module FifoBuffer {
  import opened Wrappers
  import opened Tokens
  import opened FifoSpec

  class Fifo {
    var slots: array<Token>
    var n: nat
    var readers: set<PortId>
    var wpos: nat
    var rpos: map<PortId, nat>
    var tpos: map<PortId, nat>

    ghost predicate Valid()
      reads this, slots
    {
      View().WellFormed()
    }

    /** The FIFO as a value. */
    ghost function View(): (f: FifoState)
      reads this, slots
    {
      FifoState(slots[..], n, readers, wpos, rpos, tpos)
    }

    constructor (length: nat)
      requires length > 0
      ensures Valid() && fresh(slots)
      ensures View() == FifoState(seq(length, _ => Token(Plain, Number(0))), length, {}, 0, map[], map[])
      ensures Implements(View(), [])
    {
      slots := new Token[length](_ => Token(Plain, Number(0)));
      n := length;
      readers := {};
      wpos := 0;
      rpos := map[];
      tpos := map[];
    }

    method State() returns (image: FifoImage)
      requires Valid()
      ensures ImageOf(image, View())
    {
      var names: seq<PortId> := [];
      var todo := readers;
      while todo != {}
        invariant todo <= readers
        invariant (set r | r in names) == readers - todo
      {
        var r :| r in todo;
        assert (set x | x in names + [r]) == (set x | x in names) + {r};
        names := names + [r];
        todo := todo - {r};
      }
      image := FifoImage(EncodeAll(slots[..]), n, names, wpos, rpos, tpos);
    }

    method SetState(image: FifoImage)
      modifies this
      ensures fresh(slots)
      ensures View() == Restore(image)
    {
      var tokens := DecodeAll(image.fifo);
      slots := new Token[|tokens|](i requires 0 <= i < |tokens| => tokens[i]);
      assert slots[..] == tokens;
      n := image.n;
      readers := set r | r in image.readers;
      wpos := image.wpos;
      rpos := image.rpos;
      tpos := image.tpos;
    }

    method AddReader(reader: PortId)
      requires Valid()
      modifies this
      ensures Valid() && slots == old(slots)
      ensures View() == FifoSpec.AddReader(old(View()), reader)
    {
      if reader !in readers {
        rpos := rpos[reader := 0];
        tpos := tpos[reader := 0];
        readers := readers + {reader};
      }
    }

    method RemoveReader(reader: PortId) returns (r: Result<()>)
      requires Valid()
      modifies this
      ensures Valid() && slots == old(slots)
      ensures r.Ok? <==> reader in old(readers)
      ensures View() == if r.Ok? then FifoSpec.RemoveReader(old(View()), reader) else old(View())
    {
      if reader !in rpos {
        return Raised("KeyError");
      }
      rpos := rpos - {reader};
      tpos := tpos - {reader};
      readers := readers - {reader};
      return Ok(());
    }

    /** min(read_pos.values() or [0]) */
    method SlowestRead() returns (m: nat)
      requires Valid()
      ensures m == Slowest(rpos)
    {
      if rpos == map[] {
        return 0;
      }
      var p :| p in rpos;
      m := rpos[p];
      var todo := rpos.Keys;
      while todo != {}
        invariant todo <= rpos.Keys
        invariant exists q :: q in rpos && rpos[q] == m
        invariant forall q :: q in rpos && q !in todo ==> m <= rpos[q]
      {
        var q :| q in todo;
        if rpos[q] < m { m := rpos[q]; }
        todo := todo - {q};
      }
    }

    method CanWrite() returns (ok: bool)
      requires Valid()
      ensures ok == FifoSpec.CanWrite(View())
    {
      var last := SlowestRead();
      ok := !((wpos + 1) % n == last % n);
    }

    method Write(data: Token) returns (ok: bool)
      requires Valid()
      modifies this, slots
      ensures Valid() && slots == old(slots)
      ensures ok == old(FifoSpec.CanWrite(View()))
      ensures View() == FifoSpec.Write(old(View()), data)
    {
      ok := CanWrite();
      if !ok { return; }
      slots[wpos % n] := data;
      wpos := wpos + 1;
    }

    method AvailableSlots() returns (k: int)
      requires Valid()
      ensures k == FifoSpec.AvailableSlots(View())
    {
      var last := SlowestRead();
      k := n - ((wpos - last) % n) - 1;
    }

    method AvailableTokens(reader: PortId) returns (r: Result<int>)
      requires Valid()
      ensures r.Ok? <==> reader in readers
      ensures r.Ok? ==> r.value == FifoSpec.AvailableTokens(View(), reader)
    {
      if reader !in readers {
        return Raised("No reader");
      }
      return Ok(wpos - tpos[reader]);
    }

    method CanRead(reader: PortId) returns (r: Result<bool>)
      requires Valid()
      ensures r.Ok? <==> reader in readers
      ensures r.Ok? ==> r.value == FifoSpec.CanRead(View(), reader)
    {
      if reader !in readers {
        return Raised("No reader");
      }
      return Ok(!(tpos[reader] == wpos));
    }

    method Read(reader: PortId) returns (r: Result<Option<Token>>)
      requires Valid()
      modifies this
      ensures Valid() && slots == old(slots)
      ensures r.Ok? <==> reader in old(readers)
      ensures r.Raised? ==> View() == old(View())
      ensures r.Ok? ==> r.value == Front(old(View()), reader) && View() == FifoSpec.Read(old(View()), reader)
    {
      if reader !in readers {
        return Raised("Unknown reader");
      }
      if tpos[reader] == wpos {
        return Ok(None);
      }
      var pos := tpos[reader];
      var data := slots[pos % n];
      tpos := tpos[reader := pos + 1];
      return Ok(Some(data));
    }

    method CommitReads(reader: PortId, commit: bool := true) returns (r: Result<()>)
      requires Valid()
      modifies this
      ensures Valid() && slots == old(slots)
      ensures r.Ok? <==> reader in old(readers)
      ensures View() == if r.Ok? then FifoSpec.CommitReads(old(View()), reader, commit) else old(View())
    {
      if reader !in readers {
        return Raised("KeyError");
      }
      if commit {
        rpos := rpos[reader := tpos[reader]];
      } else {
        tpos := tpos[reader := rpos[reader]];
      }
      return Ok(());
    }

    method RollbackReads(reader: PortId) returns (r: Result<()>)
      requires Valid()
      modifies this
      ensures Valid() && slots == old(slots)
      ensures r.Ok? <==> reader in old(readers)
      ensures View() == if r.Ok? then FifoSpec.CommitReads(old(View()), reader, false) else old(View())
    {
      r := CommitReads(reader, false);
    }

    method CommitOneRead(reader: PortId, commit: bool := true) returns (r: Result<()>)
      requires Valid()
      modifies this
      ensures Valid() && slots == old(slots)
      ensures r.Ok? <==> reader in old(readers)
      ensures View() == if r.Ok? then FifoSpec.CommitOneRead(old(View()), reader, commit) else old(View())
    {
      if reader !in readers {
        return Raised("KeyError");
      }
      if rpos[reader] < tpos[reader] {
        if commit {
          rpos := rpos[reader := rpos[reader] + 1];
        } else {
          tpos := tpos[reader := tpos[reader] - 1];
        }
      }
      return Ok(());
    }
  }
}
