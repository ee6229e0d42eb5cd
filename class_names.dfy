/**
 * `classNames(...classes)` (src/utils/classNames.ts): keep the truthy arguments and
 * join them with one space. The falsy arguments are `undefined`, `null`, `false`
 * and the empty string.
 */
module ClassNames {
  import opened JsString

  /** One argument of `classNames`: `string | undefined | null | false`. */
  datatype ClassArg = Str(s: string) | Undefined | Null | False {
    /** `Boolean(arg)`: only a non-empty string is truthy. */
    predicate Truthy() {
      Str? && s != ""
    }
  }

  /** `classes.filter(Boolean)`, as the strings the filter keeps. */
  function Retained(classes: seq<ClassArg>): seq<string> {
    if classes == [] then []
    else if classes[0].Truthy() then [classes[0].s] + Retained(classes[1..])
    else Retained(classes[1..])
  }

  function ClassNames(classes: seq<ClassArg>): (r: string) {
    Join(Retained(classes), " ")
  }

  /** The filter keeps exactly the truthy arguments, in order, and nothing else. */
  lemma {:induction false} RetainedSpec(classes: seq<ClassArg>)
    ensures |Retained(classes)| <= |classes|
    ensures forall k :: 0 <= k < |Retained(classes)| ==> Retained(classes)[k] != ""
    ensures forall x :: x in Retained(classes) <==> Str(x) in classes && x != ""
  {
    if classes != [] {
      RetainedSpec(classes[1..]);
      assert classes == [classes[0]] + classes[1..];
    }
  }

  lemma {:induction false} RetainedAppend(a: seq<ClassArg>, b: seq<ClassArg>)
    ensures Retained(a + b) == Retained(a) + Retained(b)
  {
    if a == [] {
      assert a + b == b;
    } else {
      assert (a + b)[1..] == a[1..] + b;
      RetainedAppend(a[1..], b);
    }
  }

  lemma {:induction false} JoinEmptyOnlyIfEmpty(xs: seq<string>, sep: string)
    requires forall k :: 0 <= k < |xs| ==> xs[k] != ""
    ensures Join(xs, sep) == "" <==> xs == []
  {
    if |xs| > 1 {
      assert |Join(xs, sep)| >= |xs[0]|;
    }
  }

  /** The result is empty exactly when every argument is falsy. */
  lemma ClassNamesEmptyIffAllFalsy(classes: seq<ClassArg>)
    ensures ClassNames(classes) == "" <==> forall k :: 0 <= k < |classes| ==> !classes[k].Truthy()
  {
    RetainedSpec(classes);
    JoinEmptyOnlyIfEmpty(Retained(classes), " ");
    if Retained(classes) != [] {
      var x := Retained(classes)[0];
      assert x in Retained(classes);
      var k :| 0 <= k < |classes| && classes[k] == Str(x);
      assert classes[k].Truthy();
    }
  }

  /** Two calls compose: `classNames(...a, ...b)` is the two results joined by a space when both are non-empty. */
  lemma {:induction false} JoinAppend(xs: seq<string>, ys: seq<string>, sep: string)
    requires xs != [] && ys != []
    ensures Join(xs + ys, sep) == Join(xs, sep) + sep + Join(ys, sep)
  {
    if |xs| == 1 {
      assert (xs + ys)[1..] == ys;
    } else {
      assert (xs + ys)[1..] == xs[1..] + ys;
      JoinAppend(xs[1..], ys, sep);
    }
  }

  lemma ClassNamesAppend(a: seq<ClassArg>, b: seq<ClassArg>)
    ensures ClassNames(a) == "" ==> ClassNames(a + b) == ClassNames(b)
    ensures ClassNames(b) == "" ==> ClassNames(a + b) == ClassNames(a)
    ensures ClassNames(a) != "" && ClassNames(b) != "" ==>
      ClassNames(a + b) == ClassNames(a) + " " + ClassNames(b)
  {
    RetainedAppend(a, b);
    RetainedSpec(a);
    RetainedSpec(b);
    JoinEmptyOnlyIfEmpty(Retained(a), " ");
    JoinEmptyOnlyIfEmpty(Retained(b), " ");
    if Retained(a) == [] {
      assert Retained(a) + Retained(b) == Retained(b);
    } else if Retained(b) == [] {
      assert Retained(a) + Retained(b) == Retained(a);
    } else {
      JoinAppend(Retained(a), Retained(b), " ");
    }
  }

  /** When no class name holds a space, splitting the result on spaces gives back the truthy arguments. */
  lemma ClassNamesSplit(classes: seq<ClassArg>)
    requires forall k :: 0 <= k < |classes| && classes[k].Str? ==> ' ' !in classes[k].s
    requires exists k :: 0 <= k < |classes| && classes[k].Truthy()
    ensures Split(ClassNames(classes), ' ') == Retained(classes)
  {
    RetainedSpec(classes);
    var xs := Retained(classes);
    forall i | 0 <= i < |xs|
      ensures ' ' !in xs[i]
    {
      assert xs[i] in xs;
      var k :| 0 <= k < |classes| && classes[k] == Str(xs[i]);
    }
    ClassNamesEmptyIffAllFalsy(classes);
    SplitJoin(xs, ' ');
  }
}
