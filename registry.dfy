/** The employee registry: saved employee records, keyed by employee id. */
module Registry {
  import opened Wrappers
  import opened Payroll

  datatype Employee = Employee(
    employeeId: string,
    fullName: string,
    position: string,
    ghanaCard: string,
    tin: string,
    basicSalary: Option<real>,
    allowances: seq<Allowance>,
    payroll: Breakdown)

  /** No two records share an employee id. */
  predicate UniqueIds(s: seq<Employee>)
  {
    forall i, j :: 0 <= i < j < |s| ==> s[i].employeeId != s[j].employeeId
  }

  predicate HasId(s: seq<Employee>, id: string)
  {
    exists i :: 0 <= i < |s| && s[i].employeeId == id
  }

  /** `findIndex(emp => emp.employeeId === id)`: the first position holding
      the id, or -1 when there is none. */
  method FindIndexById(s: seq<Employee>, id: string) returns (idx: int)
    ensures -1 <= idx < |s|
    ensures idx == -1 <==> !HasId(s, id)
    ensures idx >= 0 ==> s[idx].employeeId == id
    ensures forall i :: 0 <= i < idx ==> s[i].employeeId != id
  {
    var k := 0;
    while k < |s|
      invariant 0 <= k <= |s|
      invariant forall i :: 0 <= i < k ==> s[i].employeeId != id
    {
      if s[k].employeeId == id {
        return k;
      }
      k := k + 1;
    }
    return -1;
  }

  /** `filter(e => e.employeeId !== id)`. */
  function WithoutId(s: seq<Employee>, id: string): (r: seq<Employee>)
    ensures |r| <= |s|
    ensures !HasId(r, id)
  {
    if s == [] then []
    else (if s[0].employeeId != id then [s[0]] else []) + WithoutId(s[1..], id)
  }

  /** Filtering a concatenation filters each part in place: the records
      that stay keep their order. */
  lemma {:induction false} WithoutIdAppend(s: seq<Employee>, t: seq<Employee>, id: string)
    ensures WithoutId(s + t, id) == WithoutId(s, id) + WithoutId(t, id)
  {
    if s != [] {
      var head := if s[0].employeeId != id then [s[0]] else [];
      var rest := s[1..];
      assert (s + t)[0] == s[0];
      assert (s + t)[1..] == rest + t;
      WithoutIdAppend(rest, t, id);
      assert WithoutId(s + t, id) == head + WithoutId(rest + t, id);
      assert WithoutId(s, id) == head + WithoutId(rest, id);
      assert head + (WithoutId(rest, id) + WithoutId(t, id)) == (head + WithoutId(rest, id)) + WithoutId(t, id);
    } else {
      assert s + t == t;
    }
  }

  /** A record survives the deletion exactly when it was there and has
      another id. */
  lemma {:induction false} WithoutIdMembers(s: seq<Employee>, id: string, e: Employee)
    ensures e in WithoutId(s, id) <==> e in s && e.employeeId != id
  {
    if s != [] {
      WithoutIdMembers(s[1..], id, e);
      assert s == [s[0]] + s[1..];
    }
  }

  /** Deleting an id nobody has leaves the registry as it was. */
  lemma {:induction false} WithoutIdAbsent(s: seq<Employee>, id: string)
    requires !HasId(s, id)
    ensures WithoutId(s, id) == s
  {
    if s != [] {
      assert !HasId(s[1..], id) by {
        forall i | 0 <= i < |s[1..]| ensures s[1..][i].employeeId != id {
          assert s[1..][i] == s[i + 1];
        }
      }
      WithoutIdAbsent(s[1..], id);
      assert s == [s[0]] + s[1..];
    }
  }

  /** With unique ids, the id held at position i is held nowhere else. */
  lemma IdOnlyAt(s: seq<Employee>, id: string, i: nat)
    requires UniqueIds(s)
    requires i < |s| && s[i].employeeId == id
    ensures !HasId(s[..i], id) && !HasId(s[i + 1..], id)
  {
    var before, after := s[..i], s[i + 1..];
    forall k | 0 <= k < |before| ensures before[k].employeeId != id {
      assert before[k] == s[k];
    }
    forall k | 0 <= k < |after| ensures after[k].employeeId != id {
      assert after[k] == s[i + 1 + k];
    }
  }

  /** With unique ids, deleting the id held at position i removes exactly
      that record and keeps the others in order. */
  lemma {:induction false} WithoutIdRemovesOne(s: seq<Employee>, id: string, i: nat)
    requires UniqueIds(s)
    requires i < |s| && s[i].employeeId == id
    ensures WithoutId(s, id) == s[..i] + s[i + 1..]
  {
    var t := s[1..];
    if i == 0 {
      IdOnlyAt(s, id, 0);
      WithoutIdAbsent(t, id);
      assert s[..0] + s[1..] == t;
    } else {
      UniqueTail(s);
      assert t[i - 1] == s[i];
      WithoutIdRemovesOne(t, id, i - 1);
      assert s[0].employeeId != id;
      assert s[..i] == [s[0]] + t[..i - 1];
      assert s[i + 1..] == t[i..];
    }
  }

  lemma UniqueTail(s: seq<Employee>)
    requires UniqueIds(s) && s != []
    ensures UniqueIds(s[1..])
  {
    var t := s[1..];
    forall a, b | 0 <= a < b < |t| ensures t[a].employeeId != t[b].employeeId {
      assert t[a] == s[a + 1] && t[b] == s[b + 1];
    }
  }

  /** Deleting keeps the ids unique and removes one record or none. */
  lemma WithoutIdKeepsUnique(s: seq<Employee>, id: string)
    requires UniqueIds(s)
    ensures UniqueIds(WithoutId(s, id))
    ensures |WithoutId(s, id)| == if HasId(s, id) then |s| - 1 else |s|
  {
    if HasId(s, id) {
      var i :| 0 <= i < |s| && s[i].employeeId == id;
      WithoutIdRemovesOne(s, id, i);
      RemoveAtKeepsUnique(s, i);
    } else {
      WithoutIdAbsent(s, id);
    }
  }

  lemma RemoveAtKeepsUnique(s: seq<Employee>, i: nat)
    requires UniqueIds(s) && i < |s|
    ensures UniqueIds(s[..i] + s[i + 1..])
  {
    var r := s[..i] + s[i + 1..];
    forall a, b | 0 <= a < b < |r| ensures r[a].employeeId != r[b].employeeId {
      var a' := if a < i then a else a + 1;
      var b' := if b < i then b else b + 1;
      assert r[a] == s[a'];
      assert r[b] == s[b'];
    }
  }
}
