/**
  The fingerprint of an entry listing: one line an entry, id@updated_at, sorted and
  joined. It stands for the set of entries and their versions, whatever order the
  server lists them in.
  */
module ListingStamp {
  import opened Prelude

  type Id = string

  /** A row of a listing. The server's clock is a number here; its text is decimal. */
  datatype Row = Row(id: Id, updated: nat)

  lemma {:induction false} DigitsInjective(m: nat, n: nat)
    requires Digits(m) == Digits(n)
    ensures m == n
  {
    var x, y := Digits(m), Digits(n);
    assert x[|x| - 1] == ('0' as int + m % 10) as char && y[|y| - 1] == ('0' as int + n % 10) as char;
    assert m % 10 == n % 10;
    assert x[..|x| - 1] == (if m < 10 then "" else Digits(m / 10));
    assert y[..|y| - 1] == (if n < 10 then "" else Digits(n / 10));
    if m >= 10 && n >= 10 {
      DigitsInjective(m / 10, n / 10);
    }
  }

  /** Ids are UUIDs; all that matters is that the two separators are not in them. */
  predicate IsPlain(id: Id) {
    '@' !in id && '|' !in id
  }

  function Line(r: Row): (l: string)
    ensures l != ""
  {
    r.id + "@" + Digits(r.updated)
  }

  lemma LineInjective(a: Row, b: Row)
    requires IsPlain(a.id) && IsPlain(b.id) && Line(a) == Line(b)
    ensures a == b
  {
    var l := Line(a);
    assert l[|a.id|] == '@' && l[|b.id|] == '@';
    assert a.id == l[..|a.id|] && b.id == l[..|b.id|];
    assert Digits(a.updated) == l[|a.id| + 1..] && Digits(b.updated) == l[|b.id| + 1..];
    DigitsInjective(a.updated, b.updated);
  }

  // --- Sorting strings ----------------------------------------------------------

  function Insert(l: string, sorted: seq<string>): seq<string> {
    if sorted == [] || Less(l, sorted[0]) then [l] + sorted else [sorted[0]] + Insert(l, sorted[1..])
  }

  function Sort(lines: seq<string>): seq<string> {
    if lines == [] then [] else Insert(lines[0], Sort(lines[1..]))
  }

  ghost predicate Increasing(s: seq<string>) {
    forall i, j :: 0 <= i < j < |s| ==> Less(s[i], s[j])
  }

  lemma {:induction false} InsertMembers(l: string, s: seq<string>)
    ensures forall x :: x in Insert(l, s) <==> x == l || x in s
    ensures Increasing(s) && l !in s ==> Increasing(Insert(l, s))
  {
    if s != [] {
      InsertMembers(l, s[1..]);
      assert s == [s[0]] + s[1..];
      if Increasing(s) && l !in s {
        LessIsStrictOrder(l, s[0], l);
        if Less(l, s[0]) {
          forall k | 0 < k < |s| ensures Less(l, s[k]) {
            LessIsStrictOrder(l, s[0], s[k]);
          }
        } else {
          var rest := Insert(l, s[1..]);
          forall k | 0 <= k < |rest| ensures Less(s[0], rest[k]) {
            assert rest[k] in rest;
          }
        }
      }
    }
  }

  lemma {:induction false} SortMembers(lines: seq<string>)
    ensures forall x :: x in Sort(lines) <==> x in lines
    ensures (forall i, j :: 0 <= i < j < |lines| ==> lines[i] != lines[j]) ==> Increasing(Sort(lines))
  {
    if lines != [] {
      SortMembers(lines[1..]);
      InsertMembers(lines[0], Sort(lines[1..]));
      assert lines == [lines[0]] + lines[1..];
    }
  }

  /** An increasing list is known by its elements. */
  lemma {:induction false} IncreasingIsUnique(a: seq<string>, b: seq<string>)
    requires Increasing(a) && Increasing(b) && forall x :: x in a <==> x in b
    ensures a == b
  {
    if a != [] {
      assert a[0] in b;
    }
    if b != [] {
      assert b[0] in a;
    }
    if a != [] && b != [] {
      LessIsStrictOrder(a[0], b[0], a[0]);
      LessIsStrictOrder(b[0], a[0], b[0]);
      TailMembers(a, b);
      TailMembers(b, a);
      IncreasingIsUnique(a[1..], b[1..]);
      assert a == [a[0]] + a[1..] && b == [b[0]] + b[1..];
    }
  }

  lemma TailMembers(a: seq<string>, b: seq<string>)
    requires a != [] && b != [] && a[0] == b[0] && Increasing(a) && forall x :: x in a ==> x in b
    ensures forall x :: x in a[1..] ==> x in b[1..]
  {
    forall x | x in a[1..] ensures x in b[1..] {
      LessIsStrictOrder(x, x, x);
      assert a == [a[0]] + a[1..] && b == [b[0]] + b[1..];
      var k :| 0 <= k < |a[1..]| && a[1..][k] == x;
      assert a[k + 1] == x && Less(a[0], a[k + 1]);
      assert x in b && x != b[0];
    }
  }

  // --- Joining --------------------------------------------------------------------

  ghost predicate Joinable(lines: seq<string>) {
    forall k :: 0 <= k < |lines| ==> lines[k] != "" && '|' !in lines[k]
  }

  lemma {:induction false} JoinInjective(a: seq<string>, b: seq<string>)
    requires Joinable(a) && Joinable(b) && Join(a, "|") == Join(b, "|")
    ensures a == b
  {
    if a != [] && b != [] {
      HeadIsFirst(a);
      HeadIsFirst(b);
      var j := Join(a, "|");
      if |a| > 1 && |b| > 1 {
        JoinFromFront(a, "|");
        JoinFromFront(b, "|");
        assert Join(a[1..], "|") == j[|a[0]| + 1..] == Join(b[1..], "|");
        JoinInjective(a[1..], b[1..]);
        assert a == [a[0]] + a[1..] && b == [b[0]] + b[1..];
      }
    }
  }

  lemma HeadIsFirst(a: seq<string>)
    requires Joinable(a) && a != []
    ensures |Join(a, "|")| >= |a[0]| && Join(a, "|")[..|a[0]|] == a[0]
    ensures if |a| == 1 then |Join(a, "|")| == |a[0]| else |Join(a, "|")| > |a[0]| && Join(a, "|")[|a[0]|] == '|'
  {
    if |a| > 1 {
      JoinFromFront(a, "|");
    }
  }

  // --- The stamp --------------------------------------------------------------------

  function Lines(rows: seq<Row>): (lines: seq<string>)
    ensures |lines| == |rows| && forall k :: 0 <= k < |rows| ==> lines[k] == Line(rows[k])
  {
    seq(|rows|, k requires 0 <= k < |rows| => Line(rows[k]))
  }

  function Stamp(rows: seq<Row>): string {
    Join(Sort(Lines(rows)), "|")
  }

  /** rows lists these versions, each entry once, in some order. */
  ghost predicate Lists(rows: seq<Row>, versions: map<Id, nat>) {
    && (forall i, j :: 0 <= i < j < |rows| ==> rows[i].id != rows[j].id)
    && (forall k :: 0 <= k < |rows| ==> rows[k].id in versions && versions[rows[k].id] == rows[k].updated)
    && (forall id :: id in versions ==> Row(id, versions[id]) in rows && IsPlain(id))
  }

  lemma StampLines(rows: seq<Row>, versions: map<Id, nat>)
    requires Lists(rows, versions)
    ensures Increasing(Sort(Lines(rows))) && Joinable(Sort(Lines(rows)))
    ensures forall id, updated ::
      id in versions && versions[id] == updated ==> Line(Row(id, updated)) in Sort(Lines(rows))
    ensures forall l :: l in Sort(Lines(rows)) ==> exists id :: id in versions && l == Line(Row(id, versions[id]))
  {
    hide Sort, Digits, Less;
    var lines := Lines(rows);
    forall i, j | 0 <= i < j < |lines| ensures lines[i] != lines[j] {
      if lines[i] == lines[j] {
        LineInjective(rows[i], rows[j]);
      }
    }
    SortMembers(lines);
    forall l | l in Sort(lines)
      ensures l != "" && '|' !in l && exists id :: id in versions && l == Line(Row(id, versions[id]))
    {
      var k :| 0 <= k < |lines| && lines[k] == l;
      assert l == Line(Row(rows[k].id, versions[rows[k].id]));
    }
    forall k | 0 <= k < |Sort(lines)| ensures Sort(lines)[k] != "" && '|' !in Sort(lines)[k] {
      assert Sort(lines)[k] in Sort(lines);
    }
    forall id, updated | id in versions && versions[id] == updated ensures Line(Row(id, updated)) in Sort(lines) {
      var k :| 0 <= k < |rows| && rows[k] == Row(id, updated);
      assert lines[k] in lines;
    }
  }

  lemma SameStampSameVersions(a: seq<Row>, va: map<Id, nat>, b: seq<Row>, vb: map<Id, nat>)
    requires Lists(a, va) && Lists(b, vb) && Stamp(a) == Stamp(b)
    ensures va == vb
  {
    hide Sort, Join, Less, Increasing, Line;
    StampLines(a, va);
    StampLines(b, vb);
    var la, lb := Sort(Lines(a)), Sort(Lines(b));
    JoinInjective(la, lb);
    SameVersions(va, vb, la);
    SameVersions(vb, va, la);
  }

  lemma SameVersionsSameStamp(a: seq<Row>, b: seq<Row>, versions: map<Id, nat>)
    requires Lists(a, versions) && Lists(b, versions)
    ensures Stamp(a) == Stamp(b)
  {
    hide Sort, Join, Less, Increasing, Line;
    StampLines(a, versions);
    StampLines(b, versions);
    hide Lists, Joinable;
    IncreasingIsUnique(Sort(Lines(a)), Sort(Lines(b)));
  }

  /** Two listings have the same stamp exactly if they list the same versions of the same
    entries, in whatever order. */
  lemma StampExactly(a: seq<Row>, va: map<Id, nat>, b: seq<Row>, vb: map<Id, nat>)
    requires Lists(a, va) && Lists(b, vb)
    ensures Stamp(a) == Stamp(b) <==> va == vb
  {
    hide *;
    if Stamp(a) == Stamp(b) {
      SameStampSameVersions(a, va, b, vb);
    }
    if va == vb {
      SameVersionsSameStamp(a, b, va);
    }
  }

  lemma SameVersions(va: map<Id, nat>, vb: map<Id, nat>, lines: seq<string>)
    requires forall id :: id in va ==> IsPlain(id) && Line(Row(id, va[id])) in lines
    requires forall id :: id in vb ==> IsPlain(id)
    requires forall l :: l in lines ==> exists id :: id in vb && l == Line(Row(id, vb[id]))
    ensures forall id :: id in va ==> id in vb && vb[id] == va[id]
  {
    forall id | id in va ensures id in vb && vb[id] == va[id] {
      var other :| other in vb && Line(Row(id, va[id])) == Line(Row(other, vb[other]));
      LineInjective(Row(id, va[id]), Row(other, vb[other]));
    }
  }
}
