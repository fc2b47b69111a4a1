/** The used-by annotations that one chart leaves on the config map of another
    (pkg/kdo/chart.go:637-652, pkg/k8s/k8s.go:350-355), in namespace "default". */
module References {
  predicate LabelChar(c: char) {
    '0' <= c <= '9' || 'a' <= c <= 'z' || 'A' <= c <= 'Z' || c == '-' || c == '_' || c == '.'
  }

  predicate Sanitised(s: string) {
    s != "" && forall i :: 0 <= i < |s| ==> LabelChar(s[i])
  }

  /** A genus as extracted from a chart url: never empty, label characters only. */
  type Genus = s: string | Sanitised(s) witness "a"

  const NAMESPACE := "default"
  const PREFIX := "kdo-usedby-"
  const KAPP := "kapp.k14s.io/disable-original"

  function FixLabelValue(value: string): (r: string)
    ensures |r| == |value|
    ensures forall i :: 0 <= i < |r| ==> r[i] == if LabelChar(value[i]) then value[i] else '-'
  {
    seq(|value|, i requires 0 <= i < |value| => if LabelChar(value[i]) then value[i] else '-')
  }

  /** The reference a chart passes to AddUsedBy and RemoveUsedBy. */
  function Reference(g: Genus): string {
    NAMESPACE + "-" + g
  }

  function UsedByAnnotation(reference: string): string {
    PREFIX + FixLabelValue(reference)
  }

  type Annotations = map<string, string>

  predicate HasPrefix(key: string, prefix: string) {
    |prefix| <= |key| && key[..|prefix|] == prefix
  }

  const STEM := PREFIX + NAMESPACE + "-"

  predicate IsUserKey(key: string) {
    HasPrefix(key, STEM) && Sanitised(key[|STEM|..])
  }

  function GenusOfKey(key: string): Genus
    requires IsUserKey(key)
  {
    key[|STEM|..]
  }

  lemma {:induction false} GenusDeterminesKey(key: string)
    requires IsUserKey(key)
    ensures key == STEM + GenusOfKey(key)
    ensures HasPrefix(key, PREFIX)
  {
    assert key == key[..|STEM|] + key[|STEM|..];
    assert key[..|PREFIX|] == STEM[..|PREFIX|] == PREFIX;
  }

  lemma {:induction false} KeyOfGenus(g: Genus)
    ensures IsUserKey(UsedByAnnotation(Reference(g)))
    ensures GenusOfKey(UsedByAnnotation(Reference(g))) == g
  {
    var ref := Reference(g);
    assert Sanitised(ref) by {
      forall i | 0 <= i < |ref|
        ensures LabelChar(ref[i])
      {
        if i > |NAMESPACE| {
          assert ref[i] == g[i - |NAMESPACE| - 1];
        } else {
          assert ref[i] == "default-"[i];
        }
      }
    }
    assert FixLabelValue(ref) == ref;
    assert UsedByAnnotation(ref) == STEM + g;
  }

  /** Inside one namespace two charts never share an annotation key. */
  lemma {:induction false} ReferencesAreDistinct(g: Genus, h: Genus)
    ensures UsedByAnnotation(Reference(g)) == UsedByAnnotation(Reference(h)) <==> g == h
  {
    KeyOfGenus(g);
    KeyOfGenus(h);
  }

  /** The charts that a config map names as its users. */
  function Users(ann: Annotations): set<Genus> {
    set key | key in ann && IsUserKey(key) :: GenusOfKey(key)
  }

  /** Every annotation with the used-by prefix was written by AddUsedBy. */
  ghost predicate WellFormed(ann: Annotations) {
    forall key :: key in ann && HasPrefix(key, PREFIX) ==> IsUserKey(key)
  }

  lemma {:induction false} UserIffAnnotated(ann: Annotations, g: Genus)
    ensures g in Users(ann) <==> UsedByAnnotation(Reference(g)) in ann
  {
    KeyOfGenus(g);
    if g in Users(ann) {
      var key :| key in ann && IsUserKey(key) && GenusOfKey(key) == g;
      GenusDeterminesKey(key);
      GenusDeterminesKey(UsedByAnnotation(Reference(g)));
    }
  }

  /** Adding a reference is the "add" patch of section 4.1 of RFC 6902. */
  lemma {:induction false} AddingAUser(ann: Annotations, g: Genus)
    requires WellFormed(ann)
    ensures WellFormed(ann[UsedByAnnotation(Reference(g)) := "True"])
    ensures Users(ann[UsedByAnnotation(Reference(g)) := "True"]) == Users(ann) + {g}
  {
    var key := UsedByAnnotation(Reference(g));
    KeyOfGenus(g);
    forall h: Genus
      ensures h in Users(ann[key := "True"]) <==> h in Users(ann) + {g}
    {
      UserIffAnnotated(ann, h);
      UserIffAnnotated(ann[key := "True"], h);
      ReferencesAreDistinct(g, h);
    }
  }

  /** Removing a reference is the "remove" patch of section 4.2 of RFC 6902. */
  lemma {:induction false} RemovingAUser(ann: Annotations, g: Genus)
    requires WellFormed(ann)
    ensures WellFormed(ann - {UsedByAnnotation(Reference(g))})
    ensures Users(ann - {UsedByAnnotation(Reference(g))}) == Users(ann) - {g}
  {
    var key := UsedByAnnotation(Reference(g));
    forall h: Genus
      ensures h in Users(ann - {key}) <==> h in Users(ann) - {g}
    {
      UserIffAnnotated(ann, h);
      UserIffAnnotated(ann - {key}, h);
      ReferencesAreDistinct(g, h);
    }
  }

  ghost function UsersAmong(keys: set<string>): set<Genus> {
    set key | key in keys && IsUserKey(key) :: GenusOfKey(key)
  }

  lemma {:induction false} OneMoreKey(keys: set<string>, key: string)
    requires key !in keys
    ensures IsUserKey(key) ==> UsersAmong(keys + {key}) == UsersAmong(keys) + {GenusOfKey(key)}
    ensures IsUserKey(key) ==> GenusOfKey(key) !in UsersAmong(keys)
    ensures !IsUserKey(key) ==> UsersAmong(keys + {key}) == UsersAmong(keys)
  {
    forall k | k in keys + {key} && IsUserKey(k)
      ensures k == STEM + GenusOfKey(k)
    {
      GenusDeterminesKey(k);
    }
  }

  function Counted(keys: set<string>): set<string> {
    set key | key in keys && HasPrefix(key, PREFIX)
  }

  /** If AddUsedBy wrote all of them, there are as many references as users. */
  lemma {:induction false} ReferencesAreUsers(keys: set<string>)
    requires forall key :: key in keys && HasPrefix(key, PREFIX) ==> IsUserKey(key)
    ensures |Counted(keys)| == |UsersAmong(keys)|
  {
    if keys == {} {
      assert Counted(keys) == {} && UsersAmong(keys) == {};
    } else {
      var key :| key in keys;
      var rest := keys - {key};
      assert keys == rest + {key};
      ReferencesAreUsers(rest);
      OneMoreKey(rest, key);
      if HasPrefix(key, PREFIX) {
        assert Counted(keys) == Counted(rest) + {key};
      } else {
        if IsUserKey(key) {
          GenusDeterminesKey(key);
        }
        assert Counted(keys) == Counted(rest);
      }
    }
  }

  /** Counts the used-by annotations, whoever wrote them: the charts that still use this one. */
  method RemainingReferences(ann: Annotations) returns (counter: nat)
    ensures counter == |Counted(ann.Keys)|
    ensures WellFormed(ann) ==> counter == |Users(ann)|
  {
    counter := 0;
    var todo := ann.Keys;
    ghost var seen := {};
    while todo != {}
      invariant todo + seen == ann.Keys && todo !! seen
      invariant counter == |Counted(seen)|
    {
      var key :| key in todo;
      if HasPrefix(key, PREFIX) {
        assert Counted(seen + {key}) == Counted(seen) + {key};
        counter := counter + 1;
      } else {
        assert Counted(seen + {key}) == Counted(seen);
      }
      todo, seen := todo - {key}, seen + {key};
    }
    assert seen == ann.Keys;
    if WellFormed(ann) {
      ReferencesAreUsers(ann.Keys);
      assert UsersAmong(ann.Keys) == Users(ann);
    }
  }
}
