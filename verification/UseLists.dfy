/** User lists of values, kept exact by everything that edits operands. */
module UseLists {

  function Count<T(==)>(s: seq<T>, v: T): nat {
    multiset(s)[v]
  }

  function Replaced<T(==)>(s: seq<T>, x: T, y: T): (r: seq<T>)
    ensures |r| == |s| && forall k :: 0 <= k < |s| ==> r[k] == if s[k] == x then y else s[k]
  {
    seq(|s|, k requires 0 <= k < |s| => if s[k] == x then y else s[k])
  }

  // Without the first occurrence of x.
  function WithoutFirst<T(==)>(s: seq<T>, x: T): seq<T> {
    if s == [] then [] else if s[0] == x then s[1..] else [s[0]] + WithoutFirst(s[1..], x)
  }

  lemma CountCons<T>(x: T, s: seq<T>, v: T)
    ensures Count([x] + s, v) == Count(s, v) + if x == v then 1 else 0
  {
    assert multiset([x] + s) == multiset([x]) + multiset(s);
  }

  lemma CountSplit<T>(s: seq<T>, v: T)
    requires s != []
    ensures Count(s, v) == Count(s[1..], v) + if s[0] == v then 1 else 0
  {
    assert s == [s[0]] + s[1..];
    CountCons(s[0], s[1..], v);
  }

  /** Replacing x by y moves the occurrences of x to y. */
  lemma {:induction false} CountReplaced<T>(s: seq<T>, x: T, y: T, v: T)
    requires x != y
    ensures var r := Count(Replaced(s, x, y), v);
      r == if v == x then 0 else if v == y then Count(s, y) + Count(s, x) else Count(s, v)
  {
    var r := Replaced(s, x, y);
    if s != [] {
      CountReplaced(s[1..], x, y, v);
      assert r[1..] == Replaced(s[1..], x, y);
      CountSplit(r, v);
      CountSplit(s, v);
      CountSplit(s, x);
      CountSplit(s, y);
    }
  }

  lemma {:induction false} CountWithoutFirst<T>(s: seq<T>, x: T, v: T)
    ensures Count(WithoutFirst(s, x), v) == if v == x && x in s then Count(s, v) - 1 else Count(s, v)
  {
    if s != [] {
      CountSplit(s, v);
      if s[0] != x {
        CountWithoutFirst(s[1..], x, v);
        CountCons(s[0], WithoutFirst(s[1..], x), v);
        assert x in s <==> x in s[1..];
      }
    }
  }

  // x, n times.
  function Times<T>(x: T, n: nat): seq<T> {
    seq(n, _ => x)
  }

  lemma CountTimes<T>(x: T, n: nat, v: T)
    ensures Count(Times(x, n), v) == if v == x then n else 0
    decreases n
  {
    if n > 0 {
      assert Times(x, n) == [x] + Times(x, n - 1);
      CountCons(x, Times(x, n - 1), v);
      CountTimes(x, n - 1, v);
    }
  }

  lemma CountAppend<T>(s: seq<T>, t: seq<T>, v: T)
    ensures Count(s + t, v) == Count(s, v) + Count(t, v)
  {
  }

  lemma CountTake<T>(s: seq<T>, k: nat, v: T)
    requires k < |s|
    ensures Count(s[..k + 1], v) == Count(s[..k], v) + if s[k] == v then 1 else 0
  {
    assert s[..k + 1] == s[..k] + [s[k]];
  }

  lemma TimesMore<T>(x: T, n: nat)
    ensures Times(x, n + 1) == Times(x, n) + [x]
  {
  }

  lemma ReplacedTwice<T>(s: seq<T>, x: T, y: T)
    requires x != y
    ensures Replaced(Replaced(s, x, y), x, y) == Replaced(s, x, y)
    ensures x !in s ==> Replaced(s, x, y) == s
  {
  }

  /** u is in the user list of v as often as v is in the operand slots of u. */
  ghost predicate Exact(all: set<Value>)
    reads all
  {
    && Closed(all)
    && forall v, u {:trigger Count(v.users, u)} {:trigger Count(u.slots, v)} :: v in all && u in all ==>
         Count(v.users, u) == Count(u.slots, v)
  }

  ghost predicate Closed(all: set<Value>)
    reads all
  {
    forall v {:trigger v.users} {:trigger v.slots} :: v in all ==>
      (forall u :: u in v.users ==> u in all) && (forall o :: o in v.slots ==> o in all)
  }

  // A value, and if it is an instruction also the user of the values in its operand slots.
  class Value {
    var users: seq<Value>
    var slots: seq<Value>

    constructor ()
      ensures users == [] && slots == []
    {
      users, slots := [], [];
    }

    method AddUser(user: Value)
      modifies this`users
      ensures users == old(users) + [user]
    {
      users := users + [user];
    }

    method RemoveUser(user: Value)
      modifies this`users
      ensures users == WithoutFirst(old(users), user)
    {
      var k := 0;
      while k < |users| && users[k] != user
        invariant 0 <= k <= |users| && users == old(users)
        invariant WithoutFirst(users, user) == users[..k] + WithoutFirst(users[k..], user)
      {
        assert users[k..] == [users[k]] + users[k + 1..];
        k := k + 1;
      }
      if k < |users| {
        users := users[..k] + users[k + 1..];
      }
    }

    method ReplaceUsesOfWith(orig: Value, repl: Value)
      modifies this`slots
      ensures slots == Replaced(old(slots), orig, repl)
    {
      var k := 0;
      while k < |slots|
        invariant 0 <= k <= |slots| == |old(slots)|
        invariant forall j :: 0 <= j < |slots| ==>
          slots[j] == if j < k && old(slots)[j] == orig then repl else old(slots)[j]
      {
        if slots[k] == orig {
          slots := slots[k := repl];
        }
        k := k + 1;
      }
    }

    /** An instruction with these operands registers itself with each of them. */
    constructor Make(ops: seq<Value>, ghost all: set<Value>)
      requires Exact(all) && forall o :: o in ops ==> o in all
      modifies all
      ensures slots == ops && users == []
      ensures forall v {:trigger v.users} :: v in all ==> v.users == old(v.users) + Times(this, Count(ops, v))
      ensures forall v {:trigger v.slots} :: v in all ==> v.slots == old(v.slots)
      ensures this !in all && Exact(all + {this})
    {
      users, slots := [], ops;
      new;
      hide Times, Exact;
      var k := 0;
      assert ops[..0] == [];
      NoTimes(this);
      while k < |ops|
        invariant 0 <= k <= |ops| && slots == ops && users == [] && this !in all
        invariant forall v {:trigger v.users} :: v in all ==> v.users == old(v.users) + Times(this, Count(ops[..k], v))
        invariant forall v {:trigger v.slots} :: v in all ==> v.slots == old(v.slots)
      {
        var op := ops[k];
        forall v
          ensures Count(ops[..k + 1], v) == Count(ops[..k], v) + if op == v then 1 else 0
        {
          CountTake(ops, k, v);
        }
        TimesMore(this, Count(ops[..k], op));
        op.AddUser(this);
        k := k + 1;
      }
      assert ops[..k] == ops;
      MakeKeepsExact(this, all);
    }

    /** An instruction that nothing uses takes itself out of the user lists of its operands. */
    method Destroy(ghost all: set<Value>)
      requires this in all && Exact(all) && users == []
      modifies all
      ensures forall v {:trigger v.slots} :: v in all ==> v.slots == old(v.slots)
      ensures forall v, u {:trigger Count(v.users, u)} :: v in all && u in all ==>
        Count(v.users, u) == if u == this then 0 else old(Count(v.users, u))
      ensures Exact(all - {this})
    {
      var k := 0;
      assert slots[..0] == [];
      while k < |slots|
        invariant 0 <= k <= |slots| && slots == old(slots)
        invariant forall v {:trigger v.slots} :: v in all ==> v.slots == old(v.slots)
        invariant forall v, u {:trigger Count(v.users, u)} :: v in all && u in all ==>
          Count(v.users, u) + (if u == this then Count(slots[..k], v) else 0) == old(Count(v.users, u))
        invariant forall v, u {:trigger u in v.users} :: v in all && u in v.users ==> u in all
      {
        var op := slots[k];
        ghost var was := op.users;
        forall v
          ensures Count(slots[..k + 1], v) == Count(slots[..k], v) + if op == v then 1 else 0
        {
          CountTake(slots, k, v);
        }
        TakeAtMost(slots, k + 1, op);
        assert Count(was, this) > 0;
        op.RemoveUser(this);
        forall u
          ensures Count(op.users, u) + (if u == this then 1 else 0) == Count(was, u)
        {
          CountWithoutFirst(was, this, u);
        }
        WithoutFirstIn(was, this);
        k := k + 1;
      }
      assert slots[..k] == slots;
      forall v {:trigger v.users} {:trigger v.slots} | v in all - {this}
        ensures (forall u :: u in v.users ==> u in all - {this}) && (forall o :: o in v.slots ==> o in all - {this})
      {
        assert Count(v.users, this) == 0;
        assert old(Count(users, v)) == old(Count(v.slots, this));
      }
    }

    // The loop over the users.
    method RedirectUsers(value: Value, ghost all: set<Value>)
      requires this in all && value in all && value != this && Closed(all)
      modifies all
      ensures users == old(users) && value.users == old(value.users) + users
      ensures forall v {:trigger v.users} :: v in all && v != this && v != value ==> v.users == old(v.users)
      ensures forall u {:trigger u.slots} :: u in all ==>
          u.slots == if u in users then Replaced(old(u.slots), this, value) else old(u.slots)
    {
      hide Replaced;
      var k := 0;
      assert users[..0] == [];
      while k < |users|
        invariant 0 <= k <= |users| && users == old(users)
        invariant value.users == old(value.users) + users[..k]
        invariant forall v {:trigger v.users} :: v in all && v != this && v != value ==> v.users == old(v.users)
        invariant forall u {:trigger u.slots} :: u in all ==>
          u.slots == if u in users[..k] then Replaced(old(u.slots), this, value) else old(u.slots)
      {
        var user := users[k];
        assert users[..k + 1] == users[..k] + [user];
        ReplacedTwice(old(user.slots), this, value);
        user.ReplaceUsesOfWith(this, value);
        value.AddUser(user);
        k := k + 1;
      }
      assert users[..k] == users;
    }

    /** Every use of this value becomes a use of the other one. */
    method ReplaceAllUsesWith(value: Value, ghost all: set<Value>)
      requires this in all && value in all && value != this && Exact(all)
      modifies all
      ensures forall u {:trigger u.slots} :: u in all ==> u.slots == Replaced(old(u.slots), this, value)
      ensures users == [] && value.users == old(value.users) + old(users)
      ensures forall v {:trigger v.users} :: v in all && v != this && v != value ==> v.users == old(v.users)
      ensures Exact(all)
    {
      hide Replaced;
      RedirectUsers(value, all);
      forall u {:trigger u.slots} | u in all
        ensures u.slots == Replaced(old(u.slots), this, value)
      {
        assert old(Count(users, u)) == old(Count(u.slots, this));
        ReplacedTwice(old(u.slots), this, value);
      }
      users := [];
      forall v, u {:trigger Count(v.users, u)} {:trigger Count(u.slots, v)} | v in all && u in all
        ensures Count(v.users, u) == Count(u.slots, v)
      {
        CountReplaced(old(u.slots), this, value, v);
        assert old(Count(v.users, u)) == old(Count(u.slots, v));
        assert old(Count(users, u)) == old(Count(u.slots, this));
      }
      forall u {:trigger u.slots} | u in all
        ensures forall o :: o in u.slots ==> o in all
      {
        ReplacedWithin(old(u.slots), this, value);
      }
    }
  }

  lemma {:induction false} WithoutFirstIn<T>(s: seq<T>, x: T)
    ensures forall u :: u in WithoutFirst(s, x) ==> u in s
  {
    if s != [] && s[0] != x {
      WithoutFirstIn(s[1..], x);
    }
  }

  lemma ReplacedWithin<T>(s: seq<T>, x: T, y: T)
    ensures forall o :: o in Replaced(s, x, y) ==> o in s || o == y
  {
  }

  lemma NoTimes<T>(x: T)
    ensures Times(x, 0) == []
  {
  }

  lemma TakeAtMost<T>(s: seq<T>, k: nat, v: T)
    requires k <= |s|
    ensures Count(s[..k], v) <= Count(s, v)
  {
    assert s == s[..k] + s[k..];
    CountAppend(s[..k], s[k..], v);
  }

  twostate lemma MakeKeepsExact(new i: Value, all: set<Value>)
    requires old(Exact(all)) && i !in all && i.users == [] && forall o :: o in i.slots ==> o in all
    requires forall v {:trigger v.users} :: v in all ==> v.users == old(v.users) + Times(i, Count(i.slots, v))
    requires forall v {:trigger v.slots} :: v in all ==> v.slots == old(v.slots)
    ensures Exact(all + {i})
  {
    hide Times;
    forall v, u {:trigger Count(v.users, u)} {:trigger Count(u.slots, v)} | v in all + {i} && u in all + {i}
      ensures Count(v.users, u) == Count(u.slots, v)
    {
      if v in all {
        CountTimes(i, Count(i.slots, v), u);
        CountAppend(old(v.users), Times(i, Count(i.slots, v)), u);
      }
    }
    forall v, u {:trigger u in v.users} | v in all && u in v.users
      ensures u in all + {i}
    {
      CountTimes(i, Count(i.slots, v), u);
      CountAppend(old(v.users), Times(i, Count(i.slots, v)), u);
    }
  }
}
