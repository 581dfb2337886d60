/**
  The validation step that refuses two pool-creator beans for one data source.

  Every bean whose types include the pool-creator type is visited in order; its
  qualifier names give a canonical key (module QualifierKeys), and a bean whose
  key an earlier pool-creator bean already had produces a validation error.
*/
module BeanValidation {
  import opened Options
  import opened QualifierKeys

  /** The fully qualified name of the pool-creator bean type. */
  const PoolCreatorType := "io.quarkus.reactive.db2.client.DB2PoolCreator"

  /** The message of the IllegalStateException wrapped in each validation error. */
  const DuplicateCreatorMessage :=
    "There can be at most one bean of type '" + PoolCreatorType + "' for each datasource."

  /** A bean known to the container: its bean types and its qualifiers, already turned into names. */
  datatype BeanInfo<N> = BeanInfo(types: set<string>, qualifiers: seq<N>)

  /**
    A validation error. `beanIndex` is the position, among the matched
    pool-creator beans, of the bean whose visit produced it.
  */
  datatype ValidationError = ValidationError(beanIndex: nat, message: string)

  /** The bean-type predicate: the bean's types contain the pool-creator type. */
  predicate IsPoolCreator<N>(b: BeanInfo<N>) {
    PoolCreatorType in b.types
  }

  /**
    The pool-creator beans, in the container's order. Every matching bean is
    kept, repeated beans included, and no other bean.
  */
  function MatchPoolCreators<N(==, !new)>(beans: seq<BeanInfo<N>>): (r: seq<BeanInfo<N>>)
    ensures forall b :: b in r <==> b in beans && IsPoolCreator(b)
    ensures forall b :: multiset(r)[b] == if IsPoolCreator(b) then multiset(beans)[b] else 0
    ensures |r| <= |beans|
  {
    if |beans| == 0 then []
    else
      var last := beans[|beans| - 1];
      assert beans == beans[..|beans| - 1] + [last];
      MatchPoolCreators(beans[..|beans| - 1]) + (if IsPoolCreator(last) then [last] else [])
  }

  /**
    Matching keeps the container's order: the matches of a longer sequence are
    the matches of its prefix followed by the last bean when it matches.
  */
  lemma MatchPoolCreatorsAppend<N(!new)>(beans: seq<BeanInfo<N>>, b: BeanInfo<N>)
    ensures MatchPoolCreators(beans + [b]) ==
              MatchPoolCreators(beans) + (if IsPoolCreator(b) then [b] else [])
  {
    assert (beans + [b])[..|beans|] == beans;
  }

  /** The keys of the pool-creator beans, in visiting order. */
  function CreatorKeys<N(!new)>(creators: seq<BeanInfo<N>>, less: (N, N) -> bool, show: N -> string): (keys: seq<string>)
    ensures |keys| == |creators|
  {
    if |creators| == 0 then []
    else CreatorKeys(creators[..|creators| - 1], less, show) + [Key(creators[|creators| - 1].qualifiers, less, show)]
  }

  /** The `i`-th key is the key of the `i`-th bean's qualifiers. */
  lemma {:induction false} CreatorKeyAt<N(!new)>(creators: seq<BeanInfo<N>>, i: nat, less: (N, N) -> bool, show: N -> string)
    requires i < |creators|
    ensures CreatorKeys(creators, less, show)[i] == Key(creators[i].qualifiers, less, show)
  {
    if i < |creators| - 1 {
      var prefix := creators[..|creators| - 1];
      CreatorKeyAt(prefix, i, less, show);
      assert prefix[i] == creators[i];
    }
  }

  /** The keys of the first `n` beans. */
  ghost function KeysBefore(keys: seq<string>, n: nat): set<string>
    requires n <= |keys|
  {
    set i | 0 <= i < n :: keys[i]
  }

  /** Visiting one more bean adds its key to the keys met so far. */
  lemma KeysBeforeStep(keys: seq<string>, n: nat)
    requires n < |keys|
    ensures KeysBefore(keys, n + 1) == KeysBefore(keys, n) + {keys[n]}
  {
  }

  /** Some earlier bean has the same key as the `i`-th one. */
  ghost predicate DuplicateOfEarlier(keys: seq<string>, i: nat)
    requires i < |keys|
  {
    exists j :: 0 <= j < i && keys[j] == keys[i]
  }

  /** The beans that errors were produced for. */
  function Culprits(errors: seq<ValidationError>): set<nat> {
    set e | e in errors :: e.beanIndex
  }

  /** A bean duplicates an earlier one exactly when its key is among the keys met before it. */
  lemma DuplicateIffKeyMet(keys: seq<string>, i: nat)
    requires i < |keys|
    ensures DuplicateOfEarlier(keys, i) <==> keys[i] in KeysBefore(keys, i)
  {
  }

  /** Appending an error adds its bean to the culprits. */
  lemma CulpritsAppend(errors: seq<ValidationError>, e: ValidationError)
    ensures Culprits(errors + [e]) == Culprits(errors) + {e.beanIndex}
  {
  }

  /** What the validation pass has established after visiting the first `i` beans. */
  ghost predicate Visited(keys: seq<string>, i: nat, errors: seq<ValidationError>, seen: map<string, bool>)
    requires i <= |keys|
  {
    && (forall e :: e in errors ==> e.message == DuplicateCreatorMessage && e.beanIndex < i)
    && (forall p, q :: 0 <= p < q < |errors| ==> errors[p].beanIndex < errors[q].beanIndex)
    && (forall k: nat :: k in Culprits(errors) <==> k < i && DuplicateOfEarlier(keys, k))
    && seen.Keys == KeysBefore(keys, i)
    && (forall k :: k in seen ==> seen[k])
    && |errors| + |seen| == i
  }

  /** Visiting a bean whose key was met before: one more error, `seen` unchanged. */
  lemma VisitDuplicate(keys: seq<string>, i: nat, errors: seq<ValidationError>, seen: map<string, bool>)
    requires i < |keys| && Visited(keys, i, errors, seen)
    requires keys[i] in seen
    ensures Visited(keys, i + 1, errors + [ValidationError(i, DuplicateCreatorMessage)], seen)
  {
    KeysBeforeStep(keys, i);
    DuplicateIffKeyMet(keys, i);
    CulpritsAppend(errors, ValidationError(i, DuplicateCreatorMessage));
  }

  /** Visiting a bean whose key is new: no error, the key is recorded in `seen`. */
  lemma VisitNew(keys: seq<string>, i: nat, errors: seq<ValidationError>, seen: map<string, bool>)
    requires i < |keys| && Visited(keys, i, errors, seen)
    requires keys[i] !in seen
    ensures Visited(keys, i + 1, errors, seen[keys[i] := true])
  {
    KeysBeforeStep(keys, i);
    DuplicateIffKeyMet(keys, i);
    assert seen[keys[i] := true].Keys == seen.Keys + {keys[i]};
  }

  /**
    The validation pass. `seen` is the map the pass fills; it is returned so that
    its final contents can be stated.
  */
  method ValidateBeans<N(==, !new)>(beans: seq<BeanInfo<N>>, less: (N, N) -> bool, show: N -> string)
    returns (errors: seq<ValidationError>, seen: map<string, bool>)
    ensures var keys := CreatorKeys(MatchPoolCreators(beans), less, show);
      && (forall e :: e in errors ==> e.message == DuplicateCreatorMessage)
      && (forall p, q :: 0 <= p < q < |errors| ==> errors[p].beanIndex < errors[q].beanIndex)
      && (forall i: nat :: i in Culprits(errors) <==> i < |keys| && DuplicateOfEarlier(keys, i))
      && seen.Keys == KeysBefore(keys, |keys|)
      && (forall k :: k in seen ==> seen[k])
      && |errors| == |keys| - |seen|
      && (errors == [] <==> forall i, j :: 0 <= j < i < |keys| ==> keys[j] != keys[i])
  {
    var creators := MatchPoolCreators(beans);
    ghost var keys := CreatorKeys(creators, less, show);
    errors, seen := [], map[];
    for i := 0 to |creators|
      invariant Visited(keys, i, errors, seen)
    {
      var key := CanonicalKey(creators[i].qualifiers, less, show);
      CreatorKeyAt(creators, i, less, show);
      if GetOrDefault(seen, key, false) {
        VisitDuplicate(keys, i, errors, seen);
        errors := errors + [ValidationError(i, DuplicateCreatorMessage)];
      } else {
        VisitNew(keys, i, errors, seen);
        seen := seen[key := true];
      }
    }
    NoErrorsIffDistinctKeys(keys, errors);
  }

  /** No error is produced exactly when all keys are different. */
  lemma NoErrorsIffDistinctKeys(keys: seq<string>, errors: seq<ValidationError>)
    requires forall i: nat :: i in Culprits(errors) <==> i < |keys| && DuplicateOfEarlier(keys, i)
    ensures errors == [] <==> forall i, j :: 0 <= j < i < |keys| ==> keys[j] != keys[i]
  {
    if errors != [] {
      assert errors[0].beanIndex in Culprits(errors);
    }
    if errors == [] {
      forall i, j | 0 <= j < i < |keys|
        ensures keys[j] != keys[i]
      {
        assert i !in Culprits(errors);
      }
    }
  }
}
