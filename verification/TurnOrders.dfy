/** The orders in which a request may queue the sessions it ends: any order of a map, but
    for `Open`, which settles the pair's own session, then the caller's, then the callee's. */
module TurnOrders {
  import opened Base
  import opened Identifiers
  import opened Sessions

  function TurnAt(r: Request, m: Records, id: string): nat {
    if r.Open? && id in m then Turn(TrimSpace(r.caller), TrimSpace(r.callee), m[id]) else 0
  }

  ghost predicate TurnSorted(r: Request, m: Records, q: seq<string>) {
    forall i, j :: 0 <= i < j < |q| ==> TurnAt(r, m, q[i]) <= TurnAt(r, m, q[j])
  }

  ghost predicate Precedes(q: seq<string>, x: string, y: string) {
    exists i, j :: 0 <= i < j < |q| && q[i] == x && q[j] == y
  }

  lemma {:induction false} SomeOrder(s: set<string>) returns (q: seq<string>)
    ensures Enumerates(q, s)
  {
    if s == {} {
      q := [];
    } else {
      var x :| x in s;
      var rest := SomeOrder(s - {x});
      EnumerationAppend(rest, s - {x}, x);
      assert s - {x} + {x} == s;
      q := rest + [x];
    }
  }

  lemma EnumerationConcat(q: seq<string>, r: seq<string>, s: set<string>, t: set<string>)
    requires Enumerates(q, s) && Enumerates(r, t) && s !! t
    ensures Enumerates(q + r, s + t)
  {
    forall i, j | 0 <= i < |q| && 0 <= j < |r| ensures q[i] != r[j] {
      assert q[i] in q && r[j] in r;
    }
  }

  lemma OrderWithFirst(s: set<string>, x: string) returns (q: seq<string>)
    ensures Enumerates(q, s)
    ensures x in s ==> q != [] && q[0] == x
  {
    if x in s {
      var rest := SomeOrder(s - {x});
      EnumerationConcat([x], rest, {x}, s - {x});
      assert {x} + (s - {x}) == s;
      q := [x] + rest;
    } else {
      q := SomeOrder(s);
    }
  }

  ghost function Group(r: Request, m: Records, s: set<string>, turn: nat): set<string> {
    set id | id in s && TurnAt(r, m, id) == turn
  }

  /** Among all orders by turn there is one that puts `x` before everybody of its own turn
      or a later one. */
  lemma TurnOrder(r: Request, m: Records, s: set<string>, x: string) returns (q: seq<string>)
    requires x in s
    ensures Enumerates(q, s) && TurnSorted(r, m, q)
    ensures forall y :: y in s && y != x && TurnAt(r, m, x) <= TurnAt(r, m, y) ==> Precedes(q, x, y)
  {
    hide TurnAt, Enumerates, Group, TurnSorted, Precedes;
    var g0, g1, g2 := Group(r, m, s, 0), Group(r, m, s, 1), Group(r, m, s, 2);
    var q0 := OrderWithFirst(g0, x);
    var q1 := OrderWithFirst(g1, x);
    var q2 := OrderWithFirst(g2, x);
    ThreeTurns(r, m, s);
    EnumerationConcat(q0, q1, g0, g1);
    EnumerationConcat(q0 + q1, q2, g0 + g1, g2);
    q := q0 + q1 + q2;
    GroupsSorted(r, m, s, q0, q1, q2);
    forall y | y in s && y != x && TurnAt(r, m, x) <= TurnAt(r, m, y) ensures Precedes(q, x, y) {
      Listed(q, s, y);
      FirstPrecedes(r, m, s, x, y, q0, q1, q2);
    }
  }

  lemma GroupsSorted(r: Request, m: Records, s: set<string>, q0: seq<string>, q1: seq<string>, q2: seq<string>)
    requires Enumerates(q0, Group(r, m, s, 0)) && Enumerates(q1, Group(r, m, s, 1))
    requires Enumerates(q2, Group(r, m, s, 2))
    ensures TurnSorted(r, m, q0 + q1 + q2)
  {
    hide TurnAt, Enumerates, Group;
    GroupsInTurn(r, m, s, q0, q1, q2);
  }

  lemma FirstPrecedes(r: Request, m: Records, s: set<string>, x: string, y: string,
                      q0: seq<string>, q1: seq<string>, q2: seq<string>)
    requires Enumerates(q0, Group(r, m, s, 0)) && Enumerates(q1, Group(r, m, s, 1))
    requires Enumerates(q2, Group(r, m, s, 2)) && x in s
    requires x in Group(r, m, s, 0) ==> q0 != [] && q0[0] == x
    requires x in Group(r, m, s, 1) ==> q1 != [] && q1[0] == x
    requires x in Group(r, m, s, 2) ==> q2 != [] && q2[0] == x
    requires y in q0 + q1 + q2 && y != x && TurnAt(r, m, x) <= TurnAt(r, m, y)
    ensures Precedes(q0 + q1 + q2, x, y)
  {
    hide TurnAt, Enumerates, Group;
    var q := q0 + q1 + q2;
    GroupsInTurn(r, m, s, q0, q1, q2);
    FirstOfItsGroup(r, m, s, x, q0, q1, q2);
    var i := if TurnAt(r, m, x) == 0 then 0 else if TurnAt(r, m, x) == 1 then |q0| else |q0| + |q1|;
    var j :| 0 <= j < |q| && q[j] == y;
    assert i < j;
  }

  lemma Listed(q: seq<string>, s: set<string>, y: string)
    requires Enumerates(q, s) && y in s
    ensures y in q
  {
  }

  lemma ThreeTurns(r: Request, m: Records, s: set<string>)
    ensures Group(r, m, s, 0) + Group(r, m, s, 1) + Group(r, m, s, 2) == s
    ensures Group(r, m, s, 0) !! Group(r, m, s, 1) && Group(r, m, s, 0) + Group(r, m, s, 1) !! Group(r, m, s, 2)
  {
  }

  /** Which turn an entry has is told by where it stands. */
  lemma GroupsInTurn(r: Request, m: Records, s: set<string>, q0: seq<string>, q1: seq<string>, q2: seq<string>)
    requires Enumerates(q0, Group(r, m, s, 0)) && Enumerates(q1, Group(r, m, s, 1))
    requires Enumerates(q2, Group(r, m, s, 2))
    ensures var q := q0 + q1 + q2;
            forall k :: 0 <= k < |q| ==>
              TurnAt(r, m, q[k]) == if k < |q0| then 0 else if k < |q0| + |q1| then 1 else 2
  {
    hide TurnAt;
    var q := q0 + q1 + q2;
    forall k | 0 <= k < |q|
      ensures TurnAt(r, m, q[k]) == if k < |q0| then 0 else if k < |q0| + |q1| then 1 else 2
    {
      if k < |q0| {
        assert q[k] == q0[k] && q0[k] in q0;
      } else if k < |q0| + |q1| {
        assert q[k] == q1[k - |q0|] && q1[k - |q0|] in q1;
      } else {
        assert q[k] == q2[k - |q0| - |q1|] && q2[k - |q0| - |q1|] in q2;
      }
    }
  }

  lemma FirstOfItsGroup(r: Request, m: Records, s: set<string>, x: string,
                        q0: seq<string>, q1: seq<string>, q2: seq<string>)
    requires x in s
    requires x in Group(r, m, s, 0) ==> q0 != [] && q0[0] == x
    requires x in Group(r, m, s, 1) ==> q1 != [] && q1[0] == x
    requires x in Group(r, m, s, 2) ==> q2 != [] && q2[0] == x
    ensures var q := q0 + q1 + q2;
            var i := if TurnAt(r, m, x) == 0 then 0 else if TurnAt(r, m, x) == 1 then |q0| else |q0| + |q1|;
            i < |q| && q[i] == x
  {
  }
}
