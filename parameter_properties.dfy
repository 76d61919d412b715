/**
 * Properties of the `-a` parameter encoding. The parameters live in a hash
 * map, so the order in which their tokens are written is unspecified; these
 * lemmas say what holds for every order: which tokens are emitted, how many,
 * that every order emits the same tokens, and when the `-a` argument is left
 * out altogether.
 */
module ParameterProperties {
  import opened Wrappers
  import opened Ansible

  /** Every key `order` visits is a key of `parameters`. */
  predicate VisitsKeysOf(order: seq<string>, parameters: map<string, string>) {
    forall i :: 0 <= i < |order| ==> order[i] in parameters
  }

  /** The tokens of two orders one after the other are the tokens of the first, then those of the second. */
  lemma {:induction false} EntryTokensAppend(parameters: map<string, string>, a: seq<string>, b: seq<string>)
    requires VisitsKeysOf(a, parameters) && VisitsKeysOf(b, parameters)
    ensures VisitsKeysOf(a + b, parameters)
    ensures EntryTokens(parameters, a + b) == EntryTokens(parameters, a) + EntryTokens(parameters, b)
    decreases |b|
  {
    forall i | 0 <= i < |a + b|
      ensures (a + b)[i] in parameters
    {
      if i < |a| {
        assert (a + b)[i] == a[i];
      } else {
        assert (a + b)[i] == b[i - |a|];
      }
    }
    if b == [] {
      assert a + b == a;
    } else {
      var front := b[..|b| - 1];
      assert (a + b)[..|a + b| - 1] == a + front;
      assert (a + b)[|a + b| - 1] == b[|b| - 1];
      assert VisitsKeysOf(front, parameters);
      EntryTokensAppend(parameters, a, front);
    }
  }

  /** Taking one key out of an order takes its tokens out of the emitted multiset. */
  lemma TokensRemoveAt(parameters: map<string, string>, s: seq<string>, j: nat)
    requires VisitsKeysOf(s, parameters) && j < |s|
    ensures VisitsKeysOf(s[..j] + s[j + 1..], parameters)
    ensures multiset(EntryTokens(parameters, s))
         == multiset(EntryTokens(parameters, s[..j] + s[j + 1..])) + multiset(EntryTokens(parameters, [s[j]]))
  {
    var before, after := s[..j], s[j + 1..];
    assert s == before + [s[j]] + after;
    assert VisitsKeysOf(before, parameters) && VisitsKeysOf(after, parameters);
    TokensSplit(parameters, before, s[j], after);
  }

  /** The tokens of `before`, `x`, `after` are those of `before`, `after` plus those of `x`. */
  lemma TokensSplit(parameters: map<string, string>, before: seq<string>, x: string, after: seq<string>)
    requires VisitsKeysOf(before, parameters) && x in parameters && VisitsKeysOf(after, parameters)
    ensures VisitsKeysOf(before + [x] + after, parameters) && VisitsKeysOf(before + after, parameters)
    ensures multiset(EntryTokens(parameters, before + [x] + after))
         == multiset(EntryTokens(parameters, before + after)) + multiset(EntryTokens(parameters, [x]))
  {
    EntryTokensAppend(parameters, before, after);
    EntryTokensAppend(parameters, before, [x]);
    EntryTokensAppend(parameters, before + [x], after);
    var tb, tx, ta := EntryTokens(parameters, before), EntryTokens(parameters, [x]), EntryTokens(parameters, after);
    assert multiset(tb + tx + ta) == multiset(tb) + multiset(tx) + multiset(ta);
    assert multiset(tb + ta) == multiset(tb) + multiset(ta);
  }

  /** Taking the last key out of an order and counting its place in the rest of the multiset. */
  lemma LastOccurs(o1: seq<string>, o2: seq<string>) returns (j: nat)
    requires multiset(o1) == multiset(o2) && o1 != []
    ensures j < |o2| && o2[j] == o1[|o1| - 1]
    ensures multiset(o1[..|o1| - 1]) == multiset(o2[..j] + o2[j + 1..])
  {
    var k := o1[|o1| - 1];
    assert o1 == o1[..|o1| - 1] + [k];
    assert k in multiset(o2);
    j :| 0 <= j < |o2| && o2[j] == k;
    var before, after := o2[..j], o2[j + 1..];
    assert o2 == before + [k] + after;
    assert multiset(o2) == multiset(before) + multiset{k} + multiset(after);
    assert multiset(o1) == multiset(o1[..|o1| - 1]) + multiset{k};
    assert multiset(before + after) == multiset(before) + multiset(after);
    assert multiset(o1[..|o1| - 1]) == multiset(o1) - multiset{k};
    assert multiset(before + after) == multiset(o2) - multiset{k};
  }

  /**
   * Visiting the same keys in another order permutes the tokens: the
   * multiset of emitted tokens does not depend on the iteration order.
   */
  lemma {:induction false} TokensPermute(parameters: map<string, string>, o1: seq<string>, o2: seq<string>)
    requires VisitsKeysOf(o1, parameters) && VisitsKeysOf(o2, parameters)
    requires multiset(o1) == multiset(o2)
    ensures multiset(EntryTokens(parameters, o1)) == multiset(EntryTokens(parameters, o2))
    decreases |o1|
  {
    if o1 == [] {
      assert |o2| == |multiset(o2)| == 0;
    } else {
      var j := LastOccurs(o1, o2);
      var front := o1[..|o1| - 1];
      assert VisitsKeysOf(front, parameters);
      TokensRemoveAt(parameters, o2, j);
      TokensPermute(parameters, front, o2[..j] + o2[j + 1..]);
      TokensRemoveAt(parameters, o1, |o1| - 1);
      assert front + o1[|o1|..] == front;
    }
  }

  /** Any two iteration orders of the same hash map emit the same tokens, each as often. */
  lemma TokensOrderIndependent(parameters: map<string, string>, o1: seq<string>, o2: seq<string>)
    requires Enumerates(o1, parameters.Keys) && Enumerates(o2, parameters.Keys)
    ensures multiset(EntryTokens(parameters, o1)) == multiset(EntryTokens(parameters, o2))
  {
    TokensPermute(parameters, o1, o2);
  }

  /** Every visit to a key with a non-empty name emits that key's token. */
  lemma {:induction false} TokenOfVisit(parameters: map<string, string>, order: seq<string>, i: nat)
    requires VisitsKeysOf(order, parameters)
    requires i < |order| && order[i] != ""
    ensures EncodeParam(order[i], parameters[order[i]]) in EntryTokens(parameters, order)
    decreases |order|
  {
    var last := |order| - 1;
    var front := order[..last];
    assert VisitsKeysOf(front, parameters);
    if i < last {
      assert front[i] == order[i];
      TokenOfVisit(parameters, front, i);
    }
  }

  /** Every emitted token comes from a visit to a key with a non-empty name; `i` is that visit. */
  lemma {:induction false} TokenOrigin(parameters: map<string, string>, order: seq<string>, t: string) returns (i: nat)
    requires VisitsKeysOf(order, parameters)
    requires t in EntryTokens(parameters, order)
    ensures i < |order| && order[i] != "" && t == EncodeParam(order[i], parameters[order[i]])
    decreases |order|
  {
    var last := |order| - 1;
    var front, k := order[..last], order[last];
    assert VisitsKeysOf(front, parameters);
    if t in EntryTokens(parameters, front) {
      i := TokenOrigin(parameters, front, t);
      assert order[i] == front[i];
    } else {
      i := last;
    }
  }

  /** One token per visited key with a non-empty name. */
  lemma {:induction false} TokenCount(parameters: map<string, string>, order: seq<string>)
    requires VisitsKeysOf(order, parameters)
    ensures |EntryTokens(parameters, order)| == |order| - multiset(order)[""]
    decreases |order|
  {
    if order != [] {
      var front := order[..|order| - 1];
      assert order == front + [order[|order| - 1]];
      assert VisitsKeysOf(front, parameters);
      TokenCount(parameters, front);
    }
  }

  /** For every iteration order, every parameter with a non-empty name emits its token. */
  lemma NamedKeysEmit(parameters: map<string, string>, order: seq<string>)
    requires Enumerates(order, parameters.Keys)
    ensures forall k :: k in parameters && k != "" ==> EncodeParam(k, parameters[k]) in EntryTokens(parameters, order)
  {
    EnumeratesMembers(order, parameters.Keys);
    forall k | k in parameters && k != ""
      ensures EncodeParam(k, parameters[k]) in EntryTokens(parameters, order)
    {
      var i :| 0 <= i < |order| && order[i] == k;
      TokenOfVisit(parameters, order, i);
    }
  }

  /** For every iteration order, every emitted token comes from a parameter with a non-empty name. */
  lemma TokensFromNamedKeys(parameters: map<string, string>, order: seq<string>)
    requires Enumerates(order, parameters.Keys)
    ensures forall t :: t in EntryTokens(parameters, order) ==>
              exists k :: k in parameters && k != "" && t == EncodeParam(k, parameters[k])
  {
    forall t | t in EntryTokens(parameters, order)
      ensures exists k :: k in parameters && k != "" && t == EncodeParam(k, parameters[k])
    {
      var i := TokenOrigin(parameters, order, t);
      assert order[i] in parameters;
    }
  }

  /** For every iteration order, exactly one token is emitted per parameter with a non-empty name. */
  lemma TokenTotal(parameters: map<string, string>, order: seq<string>)
    requires Enumerates(order, parameters.Keys)
    ensures |EntryTokens(parameters, order)| == |parameters.Keys - {""}|
  {
    TokenCount(parameters, order);
    var keys := parameters.Keys;
    assert |order| == |multiset(order)| == |multiset(keys)| == |keys|;
    if "" in keys {
      assert keys == (keys - {""}) + {""};
      assert multiset(order)[""] == multiset(keys)[""] == 1;
    } else {
      assert keys - {""} == keys;
      assert multiset(order)[""] == multiset(keys)[""] == 0;
    }
  }

  /** A concatenation of non-empty texts is empty only when there are none. */
  lemma ConcatEmpty(ts: seq<string>)
    requires forall t :: t in ts ==> t != ""
    ensures Concat(ts) == "" <==> ts == []
  {
    if ts != [] {
      assert ts[|ts| - 1] in ts;
    }
  }

  /**
   * The `-a` argument is left out exactly when no parameter has a non-empty
   * name: for an empty map, or one whose only key is the empty name.
   */
  lemma ActionArgumentOmitted(parameters: map<string, string>, order: seq<string>)
    requires Enumerates(order, parameters.Keys)
    ensures ActionArgument(parameters, order).None? <==> forall k :: k in parameters ==> k == ""
  {
    TokenTotal(parameters, order);
    ConcatEmpty(EntryTokens(parameters, order));
    if forall k :: k in parameters ==> k == "" {
      assert parameters.Keys - {""} == {};
    } else {
      var k :| k in parameters && k != "";
      assert k in parameters.Keys - {""};
    }
  }

  /**
   * A raw command emits the command line followed by a space (no value), and
   * `chdir="<dir>"` when a directory is given, in either order. A command
   * line that is empty emits nothing; one that is literally `chdir` is
   * overwritten by the directory.
   */
  lemma RunCommandTokens(command: string, chdir: Option<string>, order: seq<string>)
    requires Enumerates(order, RunParameters(command, chdir).Keys)
    ensures multiset(EntryTokens(RunParameters(command, chdir), order))
         == (if command == "" || (chdir.Some? && command == "chdir") then multiset{} else multiset{command + " "})
          + (if chdir.Some? then multiset{EncodeParam("chdir", chdir.value)} else multiset{})
  {
    var parameters := RunParameters(command, chdir);
    match chdir {
      case None =>
        assert parameters.Keys == {command};
        OneKeyTokens(parameters, command, order);
      case Some(dir) =>
        if command == "chdir" {
          assert parameters.Keys == {"chdir"};
          OneKeyTokens(parameters, "chdir", order);
        } else {
          assert parameters.Keys == {command, "chdir"};
          TwoKeyTokens(parameters, command, "chdir", order);
        }
    }
  }

  /** The tokens of a map with a single key, visited in any order. */
  lemma OneKeyTokens(parameters: map<string, string>, k: string, order: seq<string>)
    requires parameters.Keys == {k}
    requires Enumerates(order, parameters.Keys)
    ensures multiset(EntryTokens(parameters, order))
         == if k == "" then multiset{} else multiset{EncodeParam(k, parameters[k])}
  {
    assert multiset([k]) == multiset({k});
    TokensOrderIndependent(parameters, order, [k]);
    SingleKeyTokens(parameters, k);
  }

  /** The tokens of a map with exactly two distinct keys, visited in any order. */
  lemma TwoKeyTokens(parameters: map<string, string>, a: string, b: string, order: seq<string>)
    requires a != b && parameters.Keys == {a, b}
    requires Enumerates(order, parameters.Keys)
    ensures multiset(EntryTokens(parameters, order))
         == (if a == "" then multiset{} else multiset{EncodeParam(a, parameters[a])})
          + (if b == "" then multiset{} else multiset{EncodeParam(b, parameters[b])})
  {
    PairEnumerates(a, b);
    TokensOrderIndependent(parameters, order, [a, b]);
    PairTokens(parameters, a, b);
  }

  /** Two keys visited one after the other emit their tokens in that order. */
  lemma PairTokens(parameters: map<string, string>, a: string, b: string)
    requires a in parameters && b in parameters
    ensures multiset(EntryTokens(parameters, [a, b]))
         == (if a == "" then multiset{} else multiset{EncodeParam(a, parameters[a])})
          + (if b == "" then multiset{} else multiset{EncodeParam(b, parameters[b])})
  {
    SingleKeyTokens(parameters, a);
    assert [a, b][..1] == [a];
  }

  /** Two distinct keys, one after the other, visit the set of both once each. */
  lemma PairEnumerates(a: string, b: string)
    requires a != b
    ensures Enumerates([a, b], {a, b})
  {
    assert multiset([a, b]) == multiset{a, b} == multiset({a, b});
  }

  /** One visited key emits its token, or nothing for the empty name. */
  lemma SingleKeyTokens(parameters: map<string, string>, k: string)
    requires k in parameters
    ensures EntryTokens(parameters, [k]) == if k == "" then [] else [EncodeParam(k, parameters[k])]
  {
    assert [k][..0] == [];
  }
}
