/** Name planning for a pack installation: `_unique_name` and the first phase of
    `_install_in_session`. */
module Names {
  import opened Prelude

  // ----- decimal suffixes ---------------------------------------------------

  function Decimal(n: nat): (s: string)
    ensures s != ""
  {
    if n < 10 then [DigitChar(n)] else Decimal(n / 10) + [DigitChar(n % 10)]
  }

  function DigitChar(d: nat): char
    requires d < 10
  {
    ('0' as int + d) as char
  }

  /** The number that a row of digits spells. */
  function Spelling(s: string): int {
    if s == "" then 0 else 10 * Spelling(s[..|s| - 1]) + (s[|s| - 1] as int - '0' as int)
  }

  /** The decimal text: digits without a leading zero, which spell the number. */
  lemma {:induction false} DecimalSpells(n: nat)
    ensures Spelling(Decimal(n)) == n
    ensures forall c :: c in Decimal(n) ==> '0' <= c <= '9'
    ensures n > 0 ==> Decimal(n)[0] != '0'
    ensures n == 0 ==> Decimal(n) == "0"
  {
    if n < 10 {
      assert Decimal(n)[..0] == "";
    } else {
      DecimalSpells(n / 10);
      assert Decimal(n)[..|Decimal(n)| - 1] == Decimal(n / 10);
    }
  }

  lemma {:induction false} DecimalInjective(m: nat, n: nat)
    requires Decimal(m) == Decimal(n)
    ensures m == n
    decreases m
  {
    var s := Decimal(m);
    assert s[|s| - 1] == DigitChar(m % 10) == DigitChar(n % 10);
    if m >= 10 && n >= 10 {
      assert s[..|s| - 1] == Decimal(m / 10) == Decimal(n / 10);
      DecimalInjective(m / 10, n / 10);
    }
  }

  /** f"{base}_{idx}" */
  function Candidate(base: string, idx: nat): string {
    base + "_" + Decimal(idx)
  }

  lemma CandidateInjective(base: string, i: nat, j: nat)
    requires Candidate(base, i) == Candidate(base, j)
    ensures i == j
  {
    assert Candidate(base, i)[|base| + 1..] == Decimal(i);
    assert Candidate(base, j)[|base| + 1..] == Decimal(j);
    DecimalInjective(i, j);
  }

  // ----- the search for a free suffix ----------------------------------------

  /** `base` and its first candidates are all taken. */
  predicate TakenBelow(base: string, existing: set<string>, idx: nat) {
    base in existing && forall j :: 1 <= j < idx ==> Candidate(base, j) in existing
  }

  /** The base and the candidates 1..n-1, n distinct names. */
  function Tried(base: string, n: nat): (names: set<string>)
    requires n >= 1
    ensures forall s :: s in names ==> s == base || exists j :: 1 <= j < n && s == Candidate(base, j)
    ensures |names| == n
  {
    if n == 1 then {base}
    else
      var fewer := Tried(base, n - 1);
      assert Candidate(base, n - 1) !in fewer by {
        forall j | 1 <= j < n - 1 ensures Candidate(base, j) != Candidate(base, n - 1) {
          if Candidate(base, j) == Candidate(base, n - 1) {
            CandidateInjective(base, j, n - 1);
          }
        }
      }
      fewer + {Candidate(base, n - 1)}
  }

  /** Pigeonhole: only as many candidates can be taken as there are names. */
  lemma Pigeonhole(base: string, existing: set<string>, idx: nat)
    requires idx >= 1 && TakenBelow(base, existing, idx)
    ensures idx <= |existing|
  {
    Subset(Tried(base, idx), existing);
  }

  lemma Subset<T>(a: set<T>, b: set<T>)
    requires a <= b
    ensures |a| <= |b|
  {
    assert |b| == |a| + |b - a| by {
      assert a + (b - a) == b;
    }
  }

  /** The least suffix that is free; it exists within the first |existing| tries. */
  function FirstFree(base: string, existing: set<string>, idx: nat): (k: nat)
    requires idx >= 1 && TakenBelow(base, existing, idx)
    ensures idx <= k <= |existing| && TakenBelow(base, existing, k)
    ensures Candidate(base, k) !in existing
    decreases |existing| - idx
  {
    Pigeonhole(base, existing, idx);
    if Candidate(base, idx) !in existing then idx
    else
      Pigeonhole(base, existing, idx + 1);
      FirstFree(base, existing, idx + 1)
  }

  function UniqueName(base: string, existing: set<string>): (name: string)
    ensures name !in existing
    ensures base !in existing ==> name == base
  {
    if base !in existing then base else Candidate(base, FirstFree(base, existing, 1))
  }

  lemma TakenText(base: string, existing: set<string>, k: nat)
    requires base in existing
    ensures TakenBelow(base, existing, k) <==> forall j :: 1 <= j < k ==> base + "_" + Decimal(j) in existing
  {
    if TakenBelow(base, existing, k) {
      forall j | 1 <= j < k ensures base + "_" + Decimal(j) in existing {
        assert Candidate(base, j) in existing;
      }
    } else {
      var j :| 1 <= j < k && Candidate(base, j) !in existing;
      assert base + "_" + Decimal(j) !in existing;
    }
  }

  /** A taken base gets the candidate with the least free suffix, and no other. */
  lemma UniqueNameIsLeast(base: string, existing: set<string>, k: nat)
    requires base in existing && k >= 1
    ensures UniqueName(base, existing) == base + "_" + Decimal(k)
            <==> base + "_" + Decimal(k) !in existing && forall j :: 1 <= j < k ==> base + "_" + Decimal(j) in existing
    ensures UniqueName(base, existing) == base + "_" + Decimal(k) ==> k <= |existing|
  {
    TakenText(base, existing, k);
    assert Candidate(base, k) == base + "_" + Decimal(k);
    var least := FirstFree(base, existing, 1);
    if Candidate(base, least) == Candidate(base, k) {
      CandidateInjective(base, least, k);
    }
  }

  /** The loop of `_unique_name` terminates, after at most |existing| candidates. */
  method FindUniqueName(base: string, existing: set<string>) returns (name: string)
    ensures name == UniqueName(base, existing)
  {
    if base !in existing {
      return base;
    }
    var idx := 1;
    while true
      invariant idx >= 1 && TakenBelow(base, existing, idx)
      invariant FirstFree(base, existing, 1) == FirstFree(base, existing, idx)
      decreases |existing| - idx
    {
      Pigeonhole(base, existing, idx);
      name := base + "_" + Decimal(idx);
      if name !in existing {
        return;
      }
      Pigeonhole(base, existing, idx + 1);
      idx := idx + 1;
    }
  }

  // ----- planning a list of names ---------------------------------------------

  datatype OnConflict = Fail | Rename

  function Range<T>(s: seq<T>): set<T> { set x | x in s }

  /** The planned names, or the first name that clashes under `Fail`. */
  function Plan(names: seq<string>, taken: set<string>, mode: OnConflict): (r: Result<seq<string>, string>)
    ensures r.Ok? ==> |r.value| == |names|
  {
    if names == [] then Ok([])
    else if names[0] in taken && mode == Fail then Err(names[0])
    else
      var name := UniqueName(names[0], taken);
      match Plan(names[1..], taken + {name}, mode)
      case Err(clash) => Err(clash)
      case Ok(rest) => Ok([name] + rest)
  }

  /** Planned names are new and pairwise distinct. */
  lemma {:induction false} PlanIsSound(names: seq<string>, taken: set<string>, mode: OnConflict)
    requires Plan(names, taken, mode).Ok?
    ensures var planned := Plan(names, taken, mode).value;
            Distinct(planned) && Range(planned) !! taken
  {
    if names != [] {
      var name := UniqueName(names[0], taken);
      PlanIsSound(names[1..], taken + {name}, mode);
      var rest := Plan(names[1..], taken + {name}, mode).value;
      var planned := [name] + rest;
      forall x | x in planned ensures x !in taken {
        if x != name {
          assert x in rest && x in Range(rest);
        }
      }
      forall j | 1 <= j < |planned| ensures planned[0] != planned[j] {
        assert planned[j] in Range(rest);
      }
    }
  }

  lemma RangeCons<T>(x: T, s: seq<T>)
    ensures Range([x] + s) == {x} + Range(s)
  {
    forall y | y in {x} + Range(s) ensures y in [x] + s {
    }
  }

  /** Each planned name is the requested one if that is free of the existing names and of the
      earlier planned ones, and otherwise the candidate with the least free suffix. */
  lemma {:induction false} PlanAt(names: seq<string>, taken: set<string>, mode: OnConflict, i: nat)
    requires Plan(names, taken, mode).Ok? && i < |names|
    ensures var planned := Plan(names, taken, mode).value;
            planned[i] == UniqueName(names[i], taken + Range(planned[..i]))
  {
    hide UniqueName;
    var name := UniqueName(names[0], taken);
    var planned := Plan(names, taken, mode).value;
    if i == 0 {
      assert taken + Range(planned[..0]) == taken;
    } else {
      PlanAt(names[1..], taken + {name}, mode, i - 1);
      var rest := Plan(names[1..], taken + {name}, mode).value;
      assert planned == [name] + rest;
      assert Range(planned[..i]) == {name} + Range(rest[..i - 1]) by {
        RangeCons(name, rest[..i - 1]);
        assert planned[..i] == [name] + rest[..i - 1];
      }
      assert taken + {name} + Range(rest[..i - 1]) == taken + Range(planned[..i]);
    }
  }

  /** `Fail` accepts exactly the lists without any clash, and then plans them unchanged;
      `Rename` accepts every list. */
  lemma {:induction false} PlanSucceedsIff(names: seq<string>, taken: set<string>, mode: OnConflict)
    ensures mode == Rename ==> Plan(names, taken, mode).Ok?
    ensures mode == Fail ==> (Plan(names, taken, mode).Ok? <==> Distinct(names) && Range(names) !! taken)
    ensures Distinct(names) && Range(names) !! taken ==> Plan(names, taken, mode) == Ok(names)
  {
    if names != [] {
      var name := UniqueName(names[0], taken);
      PlanSucceedsIff(names[1..], taken + {name}, mode);
      var rest := names[1..];
      assert names == [names[0]] + rest;
      if Distinct(names) && Range(names) !! taken {
        assert names[0] in Range(names);
        assert Distinct(rest);
        forall x | x in Range(rest) ensures x !in taken + {names[0]} {
          var j :| 0 <= j < |rest| && rest[j] == x;
          assert x == names[j + 1] && x in Range(names);
        }
      }
      if mode == Fail && Plan(names, taken, mode).Ok? {
        forall x | x in Range(names) ensures x !in taken {
          assert x == names[0] || x in Range(rest);
        }
        forall j | 1 <= j < |names| ensures names[j] != names[0] {
          assert names[j] == rest[j - 1] && rest[j - 1] in Range(rest);
        }
      }
    }
  }

  /** A name that the table has, or that an earlier item has. */
  predicate ClashesAt(names: seq<string>, taken: set<string>, i: nat)
    requires i < |names|
  {
    names[i] in taken || exists j :: 0 <= j < i && names[j] == names[i]
  }

  /** What `Fail` refuses: the first name that clashes. */
  lemma {:induction false} ClashIsFirst(names: seq<string>, taken: set<string>)
    requires Plan(names, taken, Fail).Err?
    ensures exists i :: 0 <= i < |names| && names[i] == Plan(names, taken, Fail).error && ClashesAt(names, taken, i)
                        && forall j :: 0 <= j < i ==> !ClashesAt(names, taken, j)
  {
    if names[0] in taken {
      assert ClashesAt(names, taken, 0);
    } else {
      var rest, more := names[1..], taken + {names[0]};
      ClashIsFirst(rest, more);
      var i :| 0 <= i < |rest| && rest[i] == Plan(rest, more, Fail).error && ClashesAt(rest, more, i)
               && forall j :: 0 <= j < i ==> !ClashesAt(rest, more, j);
      assert forall j :: 0 <= j < |rest| ==> names[j + 1] == rest[j];
      forall j | 0 <= j < |rest| ensures ClashesAt(names, taken, j + 1) <==> ClashesAt(rest, more, j) {
        if rest[j] !in more && exists k :: 0 <= k < j && rest[k] == rest[j] {
          var k :| 0 <= k < j && rest[k] == rest[j];
          assert names[k + 1] == names[j + 1];
        }
        if rest[j] == names[0] {
          assert names[0] == names[j + 1];
        }
      }
      forall j | 0 <= j < i + 1 ensures !ClashesAt(names, taken, j) {
        if j > 0 {
          assert !ClashesAt(rest, more, j - 1);
        }
      }
      assert names[i + 1] == rest[i] && ClashesAt(names, taken, i + 1);
    }
  }

  ghost function Prefixed(done: seq<string>, r: Result<seq<string>, string>): Result<seq<string>, string> {
    match r
    case Err(clash) => Err(clash)
    case Ok(rest) => Ok(done + rest)
  }

  lemma PlanStep(names: seq<string>, i: nat, done: seq<string>, taken: set<string>, mode: OnConflict)
    requires i < |names| && !(names[i] in taken && mode == Fail)
    ensures var name := UniqueName(names[i], taken);
            Prefixed(done, Plan(names[i..], taken, mode))
            == Prefixed(done + [name], Plan(names[i + 1..], taken + {name}, mode))
  {
    hide UniqueName;
    var name := UniqueName(names[i], taken);
    assert names[i..][1..] == names[i + 1..];
    var rest := Plan(names[i + 1..], taken + {name}, mode);
    assert rest.Ok? ==> done + ([name] + rest.value) == done + [name] + rest.value;
  }

  /** The planning loop: `existing` plays the part of the names read from the table. */
  method PlanNames(names: seq<string>, existing: set<string>, mode: OnConflict)
    returns (r: Result<seq<string>, string>)
    ensures r == Plan(names, existing, mode)
  {
    hide Plan, UniqueName;
    var planned: seq<string> := [];
    assert names[0..] == names && existing + Range(planned) == existing;
    assert forall s: seq<string> :: [] + s == s;
    for i := 0 to |names|
      invariant Plan(names, existing, mode) == Prefixed(planned, Plan(names[i..], existing + Range(planned), mode))
    {
      var name := names[i];
      ghost var taken := existing + Range(planned);
      if name in existing || name in planned {
        if mode == Fail {
          PlanClash(names[i..], taken);
          return Err(name);
        }
        var seen := Range(planned);
        name := FindUniqueName(name, existing + seen);
      }
      UniqueNameFree(names[i], taken);
      PlanStep(names, i, planned, taken, mode);
      assert existing + Range(planned + [name]) == taken + {name} by {
        RangeSnoc(planned, name);
      }
      planned := planned + [name];
    }
    PlanNothing(existing + Range(planned), mode);
    assert names[|names|..] == [] && planned + [] == planned;
    r := Ok(planned);
  }

  lemma PlanClash(names: seq<string>, taken: set<string>)
    requires names != [] && names[0] in taken
    ensures Plan(names, taken, Fail) == Err(names[0])
  {
  }

  lemma PlanNothing(taken: set<string>, mode: OnConflict)
    ensures Plan([], taken, mode) == Ok([])
  {
  }

  lemma UniqueNameFree(base: string, existing: set<string>)
    ensures base !in existing ==> UniqueName(base, existing) == base
  {
  }

  lemma RangeSnoc<T>(s: seq<T>, x: T)
    ensures Range(s + [x]) == Range(s) + {x}
  {
    forall y | y in Range(s) + {x} ensures y in s + [x] {
    }
  }
}
