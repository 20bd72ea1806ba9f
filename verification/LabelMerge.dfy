/** Label patches (internal/wire/wire.go) and their visibility rendering (pkg/entdefine/loop.go). */
module LabelMerge {
  import opened Entity

  /** A patch: empty values delete their key, the rest overwrite. */
  function Merged(labels: Labels, patch: Labels): Labels {
    map k | k in labels.Keys + patch.Keys && (k in patch ==> patch[k] != "") ::
      if k in patch then patch[k] else labels[k]
  }

  /** What a merge leaves under each key: an empty patch value deletes it, another replaces it, the rest stay. */
  lemma {:induction false} MergedValue(labels: Labels, patch: Labels, k: string)
    ensures k in Merged(labels, patch) <==> if k in patch then patch[k] != "" else k in labels
    ensures k in Merged(labels, patch) ==> Merged(labels, patch)[k] == if k in patch then patch[k] else labels[k]
  {
  }

  /** Two patches in a row are their override. */
  lemma {:induction false} MergeComposes(labels: Labels, first: Labels, second: Labels)
    ensures Merged(Merged(labels, first), second) == Merged(labels, first + second)
  {
    var twice := Merged(Merged(labels, first), second);
    var once := Merged(labels, first + second);
    assert twice.Keys == once.Keys;
  }

  /** Applying a patch twice changes nothing the second time. */
  lemma {:induction false} MergeIdempotent(labels: Labels, patch: Labels)
    ensures Merged(Merged(labels, patch), patch) == Merged(labels, patch)
  {
    MergeComposes(labels, patch, patch);
    assert patch + patch == patch;
  }

  // ----- rendering -----

  /** Byte order of strings, as sort.Strings uses it. */
  predicate Leq(a: string, b: string) {
    a == [] || (b != [] && (a[0] < b[0] || (a[0] == b[0] && Leq(a[1..], b[1..]))))
  }

  /** The order is the byte order: a prefix comes first, otherwise the first difference decides. */
  lemma {:induction false} LeqIffFirstDifference(a: string, b: string)
    ensures Leq(a, b) <==> a <= b || exists i :: 0 <= i < |a| && i < |b| && a[..i] == b[..i] && a[i] < b[i]
    decreases |a|
  {
    if a != [] && b != [] && a[0] == b[0] {
      LeqIffFirstDifference(a[1..], b[1..]);
      assert a == [a[0]] + a[1..] && b == [b[0]] + b[1..];
      if i :| 0 <= i < |a| - 1 && i < |b| - 1 && a[1..][..i] == b[1..][..i] && a[1..][i] < b[1..][i] {
        assert a[..i + 1] == [a[0]] + a[1..][..i] && b[..i + 1] == [b[0]] + b[1..][..i];
        assert a[i + 1] < b[i + 1];
      }
      if i :| 0 <= i < |a| && i < |b| && a[..i] == b[..i] && a[i] < b[i] {
        assert i > 0;
        assert a[1..][..i - 1] == a[..i][1..] && b[1..][..i - 1] == b[..i][1..];
        assert a[1..][i - 1] < b[1..][i - 1];
      }
    } else if a != [] && b != [] {
      if a[0] < b[0] {
        assert a[..0] == b[..0];
      }
      forall i | 0 < i < |a| && i < |b| ensures a[..i] != b[..i] {
        assert a[..i][0] != b[..i][0];
      }
    }
  }

  lemma {:induction false} LeqTotal(a: string, b: string)
    ensures Leq(a, b) || Leq(b, a)
  {
    if a != [] && b != [] && a[0] == b[0] {
      LeqTotal(a[1..], b[1..]);
    }
  }

  lemma {:induction false} LeqAntisymmetric(a: string, b: string)
    requires Leq(a, b) && Leq(b, a)
    ensures a == b
  {
    if a != [] {
      LeqAntisymmetric(a[1..], b[1..]);
      assert a == [a[0]] + a[1..] && b == [b[0]] + b[1..];
    }
  }

  lemma {:induction false} LeqTransitive(a: string, b: string, c: string)
    requires Leq(a, b) && Leq(b, c)
    ensures Leq(a, c)
  {
    if a != [] && a[0] == c[0] {
      LeqTransitive(a[1..], b[1..], c[1..]);
    }
  }

  ghost predicate Sorted(s: seq<string>) {
    forall i, j :: 0 <= i < j < |s| ==> Leq(s[i], s[j])
  }

  lemma {:induction false} SortedHead(s: seq<string>, t: seq<string>)
    requires Sorted(s) && s != [] && t != [] && t[0] in multiset(s)
    ensures Leq(s[0], t[0])
  {
    var j :| 0 <= j < |s| && s[j] == t[0];
    LeqTotal(s[0], s[0]);
  }

  lemma {:induction false} MultisetOfTail(s: seq<string>)
    requires s != []
    ensures multiset(s) == multiset{s[0]} + multiset(s[1..])
  {
    assert s == [s[0]] + s[1..];
  }

  lemma {:induction false} SortedHeadsAgree(s: seq<string>, t: seq<string>)
    requires Sorted(s) && Sorted(t) && s != [] && t != [] && multiset(s) == multiset(t)
    ensures s[0] == t[0]
  {
    assert s[0] in multiset(t) && t[0] in multiset(s);
    SortedHead(s, t);
    SortedHead(t, s);
    LeqAntisymmetric(s[0], t[0]);
  }

  lemma {:induction false} TailsAgree(s: seq<string>, t: seq<string>)
    requires s != [] && t != [] && s[0] == t[0] && multiset(s) == multiset(t)
    ensures multiset(s[1..]) == multiset(t[1..])
  {
    MultisetOfTail(s);
    MultisetOfTail(t);
    assert multiset(s[1..]) == multiset(s) - multiset{s[0]};
    assert multiset(t[1..]) == multiset(t) - multiset{t[0]};
  }

  /** A sorted rendering is determined by its entries: no order of iteration shows through. */
  lemma {:induction false} SortedUnique(s: seq<string>, t: seq<string>)
    requires Sorted(s) && Sorted(t) && multiset(s) == multiset(t)
    ensures s == t
    decreases |s|
  {
    assert |s| == |multiset(s)| == |multiset(t)| == |t|;
    if s != [] {
      SortedHeadsAgree(s, t);
      TailsAgree(s, t);
      SortedUnique(s[1..], t[1..]);
      assert s == [s[0]] + s[1..] && t == [t[0]] + t[1..];
    }
  }

  function Entry(k: string, v: string): string {
    k + "=" + v
  }

  ghost function AnyKey(labels: Labels): (k: string)
    requires labels != map[]
    ensures k in labels
  {
    var k :| k in labels; k
  }

  ghost function Entries(labels: Labels): multiset<string>
    decreases |labels|
  {
    if labels == map[] then multiset{} else
      var k := AnyKey(labels);
      Entries(labels - {k}) + multiset{Entry(k, labels[k])}
  }

  lemma {:induction false} EntriesUnfold(labels: Labels)
    requires labels != map[]
    ensures var k := AnyKey(labels);
      Entries(labels) == Entries(labels - {k}) + multiset{Entry(k, labels[k])}
  {
  }

  /** The entries do not depend on which key is taken first. */
  lemma {:induction false} EntriesRemove(labels: Labels, k: string)
    requires k in labels
    ensures Entries(labels) == Entries(labels - {k}) + multiset{Entry(k, labels[k])}
    decreases |labels|
  {
    var j := AnyKey(labels);
    EntriesUnfold(labels);
    if j != k {
      var without := labels - {j} - {k};
      assert labels - {k} - {j} == without;
      EntriesRemove(labels - {j}, k);
      EntriesRemove(labels - {k}, j);
    }
  }

  method Insert(s: seq<string>, x: string) returns (t: seq<string>)
    requires Sorted(s)
    ensures Sorted(t) && multiset(t) == multiset(s) + multiset{x}
  {
    var i := |s|;
    while i > 0 && !Leq(s[i - 1], x)
      invariant 0 <= i <= |s|
      invariant forall k :: i <= k < |s| ==> Leq(x, s[k])
    {
      LeqTotal(s[i - 1], x);
      i := i - 1;
    }
    t := s[..i] + [x] + s[i..];
    assert s == s[..i] + s[i..];
    InsertedSorted(s, i, x);
  }

  lemma {:induction false} InsertedSorted(s: seq<string>, i: nat, x: string)
    requires Sorted(s) && i <= |s| && (i > 0 ==> Leq(s[i - 1], x)) && forall k :: i <= k < |s| ==> Leq(x, s[k])
    ensures Sorted(s[..i] + [x] + s[i..])
  {
    forall k | 0 <= k < i ensures Leq(s[k], x) {
      if k < i - 1 {
        LeqTransitive(s[k], s[i - 1], x);
      }
    }
  }

  /** The rendering has one "k=v" keyword for each label and no other. */
  lemma {:induction false} EntriesAre(labels: Labels, entry: string)
    ensures |Entries(labels)| == |labels|
    ensures entry in Entries(labels) <==> exists k :: k in labels && entry == k + "=" + labels[k]
    decreases |labels|
  {
    if labels != map[] {
      var j := AnyKey(labels);
      EntriesUnfold(labels);
      EntriesAre(labels - {j}, entry);
      assert labels.Keys == (labels - {j}).Keys + {j};
      if entry in Entries(labels - {j}) {
        var k :| k in labels - {j} && entry == k + "=" + (labels - {j})[k];
        assert k in labels && entry == k + "=" + labels[k];
      }
      if k :| k in labels && entry == k + "=" + labels[k] {
        assert k != j ==> k in labels - {j} && entry == k + "=" + (labels - {j})[k];
      }
    }
  }

  /** Any order of visiting the map renders the same list: one "k=v" keyword per label, in byte order. */
  method LabelValues(labels: Labels) returns (out: seq<string>)
    ensures Sorted(out) && multiset(out) == Entries(labels)
    ensures |out| == |labels|
    ensures forall entry :: entry in out <==> exists k :: k in labels && entry == k + "=" + labels[k]
  {
    out := [];
    var todo := labels;
    while todo != map[]
      invariant Sorted(out)
      invariant multiset(out) + Entries(todo) == Entries(labels)
      decreases |todo|
    {
      var k :| k in todo;
      var more := Insert(out, Entry(k, todo[k]));
      OneMoreEntry(labels, todo, k, out, more);
      out, todo := more, todo - {k};
    }
    RenderedExactly(labels, out);
  }

  lemma {:induction false} OneMoreEntry(labels: Labels, todo: Labels, k: string, out: seq<string>, more: seq<string>)
    requires k in todo && multiset(more) == multiset(out) + multiset{Entry(k, todo[k])}
    requires multiset(out) + Entries(todo) == Entries(labels)
    ensures multiset(more) + Entries(todo - {k}) == Entries(labels) && |todo - {k}| < |todo|
  {
    EntriesRemove(todo, k);
    assert todo.Keys == (todo - {k}).Keys + {k};
  }

  lemma {:induction false} RenderedExactly(labels: Labels, out: seq<string>)
    requires multiset(out) == Entries(labels)
    ensures |out| == |labels|
    ensures forall entry :: entry in out <==> exists k :: k in labels && entry == k + "=" + labels[k]
  {
    assert |out| == |multiset(out)|;
    EntriesAre(labels, "");
    forall entry ensures entry in out <==> exists k :: k in labels && entry == k + "=" + labels[k] {
      EntriesAre(labels, entry);
      assert entry in out <==> entry in multiset(out);
    }
  }
}
