/**
 * Per-device timing overrides of one SMBus bus. A bus keeps a list of
 * entries keyed by the 7-bit device address; a transaction to an address
 * without an entry uses the default parameters.
 */
module Tuning {

  datatype BusParams = BusParams(addr: bv16, t: bv8, datw: bv8, datr: bv8, ed: bv8)

  /** default_smbus_params: t=1, datw=3, datr=3, ed=0 (its address is left 0). */
  const DefaultParams := BusParams(0, 1, 3, 3, 0)

  predicate HasAddr(table: seq<BusParams>, addr: bv16) {
    exists i :: 0 <= i < |table| && table[i].addr == addr
  }

  /** The entry used for `addr`: the first one with that address, else the default. */
  function Lookup(table: seq<BusParams>, addr: bv16): (p: BusParams)
    ensures !HasAddr(table, addr) ==> p == DefaultParams
    ensures HasAddr(table, addr) ==>
      exists i :: 0 <= i < |table| && table[i] == p && p.addr == addr &&
        forall j :: 0 <= j < i ==> table[j].addr != addr
  {
    if table == [] then DefaultParams
    else if table[0].addr == addr then table[0]
    else
      var p := Lookup(table[1..], addr);
      assert HasAddr(table, addr) ==> HasAddr(table[1..], addr) by {
        if HasAddr(table, addr) {
          var i :| 0 <= i < |table| && table[i].addr == addr;
          assert table[1..][i - 1].addr == addr;
        }
      }
      assert HasAddr(table[1..], addr) ==> HasAddr(table, addr) by {
        if HasAddr(table[1..], addr) {
          var i :| 0 <= i < |table[1..]| && table[1..][i].addr == addr;
          assert table[i + 1].addr == addr;
        }
      }
      if HasAddr(table, addr) then
        var i :| 0 <= i < |table[1..]| && table[1..][i] == p && p.addr == addr &&
          forall j :: 0 <= j < i ==> table[1..][j].addr != addr;
        assert table[i + 1] == p;
        assert forall j :: 0 <= j < i + 1 ==> table[j].addr != addr by {
          forall j | 0 <= j < i + 1 ensures table[j].addr != addr {
            if j > 0 { assert table[j] == table[1..][j - 1]; }
          }
        }
        p
      else
        p
  }

  /** get_smbus_params: the search over the bus's list, stopping at the first match. */
  method GetSmbusParams(table: seq<BusParams>, addr: bv16) returns (p: BusParams)
    ensures p == Lookup(table, addr)
  {
    p := DefaultParams;
    var i := 0;
    while i < |table|
      invariant 0 <= i <= |table|
      invariant Lookup(table, addr) == Lookup(table[i..], addr)
      decreases |table| - i
    {
      if table[i].addr == addr {
        p := table[i];
        return;
      }
      assert table[i..][1..] == table[i + 1..];
      i := i + 1;
    }
  }

  /**
   * scd_set_smbus_params on one bus: overwrite the timing of the first entry
   * with the same address, or append a new entry when there is none.
   */
  function Upsert(table: seq<BusParams>, p: BusParams): (r: seq<BusParams>)
    ensures HasAddr(table, p.addr) ==> |r| == |table|
    ensures !HasAddr(table, p.addr) ==> r == table + [p]
  {
    if table == [] then [p]
    else if table[0].addr == p.addr then [p] + table[1..]
    else
      assert HasAddr(table, p.addr) <==> HasAddr(table[1..], p.addr) by {
        if HasAddr(table[1..], p.addr) {
          var i :| 0 <= i < |table[1..]| && table[1..][i].addr == p.addr;
          assert table[i + 1].addr == p.addr;
        }
      }
      [table[0]] + Upsert(table[1..], p)
  }

  /** The list walk of scd_set_smbus_params with its in-place update. */
  method SetParamsIn(table: seq<BusParams>, p: BusParams) returns (r: seq<BusParams>)
    ensures r == Upsert(table, p)
  {
    var i := 0;
    while i < |table|
      invariant 0 <= i <= |table|
      invariant forall j :: 0 <= j < i ==> table[j].addr != p.addr
      invariant Upsert(table, p) == table[..i] + Upsert(table[i..], p)
      decreases |table| - i
    {
      if table[i].addr == p.addr {
        r := table[i := p];
        assert r == table[..i] + Upsert(table[i..], p);
        return;
      }
      UpsertSkip(table[..i], table[i], table[i + 1..], p);
      assert table[..i + 1] == table[..i] + [table[i]];
      assert table[i..] == [table[i]] + table[i + 1..];
      i := i + 1;
    }
    r := table + [p];
    assert table[i..] == [];
    assert table[..i] == table;
  }

  lemma {:induction false} UpsertSkip(pre: seq<BusParams>, e: BusParams, post: seq<BusParams>, p: BusParams)
    requires e.addr != p.addr
    ensures Upsert([e] + post, p) == [e] + Upsert(post, p)
    ensures pre + Upsert([e] + post, p) == (pre + [e]) + Upsert(post, p)
  {
    assert ([e] + post)[1..] == post;
  }

  /** After an update, the address looks up to exactly the new parameters. */
  lemma {:induction false} LookupAfterUpsert(table: seq<BusParams>, p: BusParams)
    ensures Lookup(Upsert(table, p), p.addr) == p
  {
    if table != [] && table[0].addr != p.addr {
      LookupAfterUpsert(table[1..], p);
      assert ([table[0]] + Upsert(table[1..], p))[1..] == Upsert(table[1..], p);
    }
  }

  /** An update leaves the lookup of every other address unchanged. */
  lemma {:induction false} LookupOtherUnchanged(table: seq<BusParams>, p: BusParams, a: bv16)
    requires a != p.addr
    ensures Lookup(Upsert(table, p), a) == Lookup(table, a)
  {
    if table == [] {
    } else if table[0].addr == p.addr {
      assert ([p] + table[1..])[1..] == table[1..];
    } else {
      LookupOtherUnchanged(table[1..], p, a);
      assert ([table[0]] + Upsert(table[1..], p))[1..] == Upsert(table[1..], p);
    }
  }

  /** No two entries share an address. */
  predicate Unique(table: seq<BusParams>) {
    forall i, j :: 0 <= i < j < |table| ==> table[i].addr != table[j].addr
  }

  /** Updates alone keep the list free of duplicate addresses. */
  lemma {:induction false} UpsertKeepsUnique(table: seq<BusParams>, p: BusParams)
    requires Unique(table)
    ensures Unique(Upsert(table, p))
  {
    if table == [] {
    } else if table[0].addr == p.addr {
      var r := [p] + table[1..];
      forall i, j | 0 <= i < j < |r| ensures r[i].addr != r[j].addr {
        if i > 0 { assert r[i] == table[i]; }
        assert r[j] == table[j];
      }
    } else {
      UpsertKeepsUnique(table[1..], p);
      var u := Upsert(table[1..], p);
      var r := [table[0]] + u;
      forall j | 0 <= j < |u| ensures u[j].addr != table[0].addr {
        UpsertMembers(table[1..], p, j);
      }
      forall i, j | 0 <= i < j < |r| ensures r[i].addr != r[j].addr {
        if i == 0 { assert r[j] == u[j - 1]; } else { assert r[i] == u[i - 1] && r[j] == u[j - 1]; }
      }
    }
  }

  /** Every entry after an update is the new one or an old one. */
  lemma {:induction false} UpsertMembers(table: seq<BusParams>, p: BusParams, j: int)
    requires 0 <= j < |Upsert(table, p)|
    ensures Upsert(table, p)[j] == p || Upsert(table, p)[j] in table
  {
    if table == [] {
    } else if table[0].addr == p.addr {
      if j > 0 { assert Upsert(table, p)[j] == table[j]; }
    } else if j > 0 {
      UpsertMembers(table[1..], p, j - 1);
      assert Upsert(table, p)[j] == Upsert(table[1..], p)[j - 1];
    }
  }
}
