/**
 * What every entity inherits from core/BaseEntity.php: hydration from a row, which
 * turns each snake_case key into the name of a setter and calls the setters that
 * exist in the row's order, and the camelCase to snake_case conversion.
 */
module Hydration {
  import opened Wrappers
  import opened Php

  /** The characters after which `ucwords` starts a new word: space, tab, CR, LF, form feed, vertical tab. */
  const WordDelimiters: seq<char> := [' ', '\t', '\r', '\n', '\U{000C}', '\U{000B}']

  // --------------------------------------------------------- setter names

  /** `str_replace($a, $b, $s)` for single characters: no `a` is left, and every other character stays in place. */
  function ReplaceChar(s: string, a: char, b: char): (r: string)
    ensures |r| == |s|
    ensures a != b ==> a !in r
    ensures forall i | 0 <= i < |s| && s[i] != a :: r[i] == s[i]
  {
    seq(|s|, i requires 0 <= i < |s| => if s[i] == a then b else s[i])
  }

  /**
   * `ucwords`: the first character and every character after a delimiter are no
   * longer lower-case, every other character is left as it was (and, by
   * `UcWordsOnlyCase`, nothing but case changes).
   */
  function UcWords(s: string): (r: string)
    ensures |r| == |s|
    ensures forall i | 0 <= i < |s| && (i == 0 || s[i - 1] in WordDelimiters) :: !IsLower(r[i])
    ensures forall i {:trigger r[i]} | 0 <= i < |s| && !(i == 0 || s[i - 1] in WordDelimiters) :: r[i] == s[i]
  {
    seq(|s|, i requires 0 <= i < |s| => if i == 0 || s[i - 1] in WordDelimiters then UpperChar(s[i]) else s[i])
  }

  /** Each `a` became a `b`: the `b`s of the result are those of the input and its `a`s. */
  lemma {:induction false} ReplaceCharCount(s: string, a: char, b: char)
    requires a != b
    ensures CountChar(ReplaceChar(s, a, b), b) == CountChar(s, a) + CountChar(s, b)
  {
    if |s| > 0 {
      assert ReplaceChar(s, a, b)[1..] == ReplaceChar(s[1..], a, b);
      ReplaceCharCount(s[1..], a, b);
    }
  }

  /** `ucwords` leaves its own result unchanged: it finds the same word starts and they are already upper-case. */
  lemma UcWordsIdempotent(s: string)
    ensures UcWords(UcWords(s)) == UcWords(s)
  {
    forall i | 0 <= i < |s|
      ensures UcWords(UcWords(s))[i] == UcWords(s)[i]
    {
      UcWordsIdempotentAt(s, i);
    }
  }

  lemma UcWordsIdempotentAt(s: string, i: nat)
    requires i < |s|
    ensures UcWords(UcWords(s))[i] == UcWords(s)[i]
  {
    var r := UcWords(s);
    UcWordsAt(s, i);
    UcWordsAt(r, i);
    UpperCharStable(s[i]);
    if i > 0 {
      UcWordsAt(s, i - 1);
      UpperCharStable(s[i - 1]);
      assert (r[i - 1] in WordDelimiters) == (s[i - 1] in WordDelimiters);
    }
  }

  /** `ucwords` changes nothing but the case of letters: lower-casing cannot tell its result from its input. */
  lemma UcWordsOnlyCase(s: string)
    ensures ToLower(UcWords(s)) == ToLower(s)
  {
    forall i | 0 <= i < |s|
      ensures LowerChar(UcWords(s)[i]) == LowerChar(s[i])
    {
      UcWordsAt(s, i);
    }
  }

  /** The character at `i` after `ucwords`. */
  lemma UcWordsAt(s: string, i: nat)
    requires i < |s|
    ensures UcWords(s)[i] == if i == 0 || s[i - 1] in WordDelimiters then UpperChar(s[i]) else s[i]
  {
  }

  /** Upper-casing twice is upper-casing once, and it neither makes nor removes a word delimiter. */
  lemma UpperCharStable(c: char)
    ensures UpperChar(UpperChar(c)) == UpperChar(c)
    ensures UpperChar(c) in WordDelimiters <==> c in WordDelimiters
  {
  }

  /** `str_replace($c, '', $s)` for one character: every `c` is deleted, and only those. */
  function RemoveChar(s: string, c: char): (r: string)
    ensures c !in r && |r| == |s| - CountChar(s, c)
  {
    if s == [] then [] else (if s[0] == c then [] else [s[0]]) + RemoveChar(s[1..], c)
  }

  /** The setter `hydrate` looks for under `key`: `set` and the key's words, each capitalised, run together. */
  function SetterName(key: string): string
  {
    "set" + SetterSuffix(key)
  }

  /** `method_exists`: PHP method names are case-insensitive, so `methods` holds lower-cased names. */
  predicate MethodExists(methods: set<string>, name: string)
  {
    ToLower(name) in methods
  }

  predicate NoSeparator(w: string)
  {
    '_' !in w && forall i | 0 <= i < |w| :: w[i] !in WordDelimiters
  }

  /** Words run together, each with its first letter upper-cased. */
  function Capitalised(words: seq<string>): (r: string)
  {
    if words == [] then "" else UcFirst(words[0]) + Capitalised(words[1..])
  }

  lemma {:induction false} RemoveCharAppend(a: string, b: string, c: char)
    ensures RemoveChar(a + b, c) == RemoveChar(a, c) + RemoveChar(b, c)
  {
    if a != [] {
      var head := if a[0] == c then [] else [a[0]];
      assert (a + b)[0] == a[0] && (a + b)[1..] == a[1..] + b;
      assert RemoveChar(a + b, c) == head + RemoveChar(a[1..] + b, c);
      assert RemoveChar(a, c) == head + RemoveChar(a[1..], c);
      RemoveCharAppend(a[1..], b, c);
    } else {
      assert a + b == b;
    }
  }

  lemma {:induction false} RemoveCharAbsent(s: string, c: char)
    requires c !in s
    ensures RemoveChar(s, c) == s
  {
    if s != [] {
      assert s[0] in s;
      assert forall x | x in s[1..] :: x in s;
      RemoveCharAbsent(s[1..], c);
    }
  }

  /** A space ends a word: `ucwords` works on each side of it independently. */
  lemma UcWordsSplit(a: string, b: string)
    ensures UcWords(a + " " + b) == UcWords(a) + " " + UcWords(b)
  {
    var s := a + " " + b;
    var l := UcWords(s);
    var r := UcWords(a) + " " + UcWords(b);
    assert |l| == |r|;
    forall i | 0 <= i < |s|
      ensures l[i] == r[i]
    {
      if i > |a| + 1 {
        assert s[i - 1] == b[i - |a| - 2];
      }
    }
  }

  /** A single word: only its first letter is upper-cased and nothing is removed. */
  lemma OneWord(w: string)
    requires NoSeparator(w)
    ensures ReplaceChar(w, '_', ' ') == w
    ensures RemoveChar(UcWords(w), ' ') == UcFirst(w)
  {
    assert UcWords(w) == UcFirst(w);
    assert ' ' in WordDelimiters;
    assert forall i | 0 <= i < |w| :: UcFirst(w)[i] != ' ';
    RemoveCharAbsent(UcFirst(w), ' ');
  }

  /** What follows `set` in the setter name of `key`. */
  function SetterSuffix(key: string): string
  {
    RemoveChar(UcWords(ReplaceChar(key, '_', ' ')), ' ')
  }

  /** A character `ucwords` treats as a word boundary once `_` has become a space. */
  predicate KeySeparator(c: char) { c == '_' || c == ' ' }

  /** Words with a separator character between each two of them. */
  function JoinWith(words: seq<string>, separators: string): string
    requires |words| == |separators| + 1
    decreases |separators|
  {
    if separators == [] then words[0] else words[0] + [separators[0]] + JoinWith(words[1..], separators[1..])
  }

  lemma ReplaceCharSplit(w: string, c: char, j: string)
    requires '_' !in w && KeySeparator(c)
    ensures ReplaceChar(w + [c] + j, '_', ' ') == w + " " + ReplaceChar(j, '_', ' ')
  {
    var l := ReplaceChar(w + [c] + j, '_', ' ');
    var r := w + " " + ReplaceChar(j, '_', ' ');
    assert |l| == |r|;
    forall i | 0 <= i < |l|
      ensures l[i] == r[i]
    {
      if i < |w| {
        assert w[i] in w;
      }
    }
  }

  /** Removing the separator around which a text was joined removes it from both sides. */
  lemma RemoveSeparator(a: string, b: string, c: char)
    ensures RemoveChar(a + [c] + b, c) == RemoveChar(a, c) + RemoveChar(b, c)
  {
    assert a + [c] + b == a + ([c] + b);
    RemoveCharAppend(a, [c] + b, c);
    assert ([c] + b)[1..] == b;
  }

  /** The first word of a key becomes the first capitalised part of its setter name. */
  lemma SetterSuffixSplit(w: string, c: char, j: string)
    requires NoSeparator(w) && KeySeparator(c)
    ensures SetterSuffix(w + [c] + j) == UcFirst(w) + SetterSuffix(j)
  {
    var rj := ReplaceChar(j, '_', ' ');
    ReplaceCharSplit(w, c, j);
    UcWordsSplit(w, rj);
    RemoveSeparator(UcWords(w), UcWords(rj), ' ');
    OneWord(w);
  }

  /**
   * A key of words separated by `_` or spaces names the setter `set` + the
   * capitalised words: `user_id` and `user id` both give `setUserId`.
   */
  lemma {:induction false} SetterNameOfWords(words: seq<string>, separators: string)
    requires |words| == |separators| + 1
    requires forall i | 0 <= i < |words| :: NoSeparator(words[i])
    requires forall i | 0 <= i < |separators| :: KeySeparator(separators[i])
    ensures SetterSuffix(JoinWith(words, separators)) == Capitalised(words)
    ensures SetterName(JoinWith(words, separators)) == "set" + Capitalised(words)
    decreases |separators|
  {
    if separators == [] {
      OneWord(words[0]);
      assert Capitalised(words) == UcFirst(words[0]) + Capitalised([]);
    } else {
      SetterNameOfWords(words[1..], separators[1..]);
      SetterSuffixSplit(words[0], separators[0], JoinWith(words[1..], separators[1..]));
    }
  }

  /** The key `user_id` is handled by `setUserId`. */
  lemma UserIdSetter(key: string)
    requires key == "user_id"
    ensures SetterName(key) == "setUserId"
  {
    var words := ["user", "id"];
    SetterNameOfWords(words, "_");
    assert JoinWith(words, "_") == key;
    assert Capitalised(words) == "UserId";
  }

  // ------------------------------------------------------- the call list

  /**
   * The setter calls `hydrate` makes for `data`: for each entry in order, the
   * (lower-cased) setter of its key with its value, when that setter exists.
   */
  function SetterCalls(data: seq<(string, Value)>, methods: set<string>): (calls: seq<(string, Value)>)
    ensures |calls| <= |data|
    ensures forall i | 0 <= i < |calls| :: calls[i].0 in methods
  {
    if data == [] then []
    else
      var name := SetterName(data[0].0);
      (if MethodExists(methods, name) then [(ToLower(name), data[0].1)] else []) + SetterCalls(data[1..], methods)
  }

  /** The calls for two runs of entries are the calls for each, in order. */
  lemma {:induction false} SetterCallsAppend(a: seq<(string, Value)>, b: seq<(string, Value)>, methods: set<string>)
    ensures SetterCalls(a + b, methods) == SetterCalls(a, methods) + SetterCalls(b, methods)
  {
    if a != [] {
      var name := SetterName(a[0].0);
      var head := if MethodExists(methods, name) then [(ToLower(name), a[0].1)] else [];
      assert (a + b)[0] == a[0] && (a + b)[1..] == a[1..] + b;
      assert SetterCalls(a + b, methods) == head + SetterCalls(a[1..] + b, methods);
      assert SetterCalls(a, methods) == head + SetterCalls(a[1..], methods);
      SetterCallsAppend(a[1..], b, methods);
    } else {
      assert a + b == b;
    }
  }

  /** A key without a setter is skipped: the calls are those of the other entries. */
  lemma UnknownKeySkipped(a: seq<(string, Value)>, key: string, value: Value, b: seq<(string, Value)>, methods: set<string>)
    requires !MethodExists(methods, SetterName(key))
    ensures SetterCalls(a + [(key, value)] + b, methods) == SetterCalls(a + b, methods)
  {
    SetterCallsAppend(a + [(key, value)], b, methods);
    SetterCallsAppend(a, [(key, value)], methods);
    SetterCallsAppend(a, b, methods);
  }

  /** A key with a setter is called once, with its own value, between the calls of the entries around it. */
  lemma KnownKeyCalledInPlace(a: seq<(string, Value)>, key: string, value: Value, b: seq<(string, Value)>, methods: set<string>)
    requires MethodExists(methods, SetterName(key))
    ensures SetterCalls(a + [(key, value)] + b, methods)
      == SetterCalls(a, methods) + [(ToLower(SetterName(key)), value)] + SetterCalls(b, methods)
  {
    SetterCallsAppend(a + [(key, value)], b, methods);
    SetterCallsAppend(a, [(key, value)], methods);
  }

  /** The calls from entry i on: entry i's call, if its setter exists, then those of the later entries. */
  lemma SetterCallsStep(data: seq<(string, Value)>, i: nat, methods: set<string>)
    requires i < |data|
    ensures SetterCalls(data[i..], methods)
      == (if MethodExists(methods, SetterName(data[i].0)) then [(ToLower(SetterName(data[i].0)), data[i].1)] else [])
        + SetterCalls(data[i + 1..], methods)
  {
    assert data[i..][1..] == data[i + 1..];
  }

  // ----------------------------------------------------------- hydration

  /**
   * The setters called one after another on state `s`; the first one that throws
   * ends hydration with that exception, keeping what the earlier ones set.
   */
  function Run<S>(s: S, calls: seq<(string, Value)>, apply: (S, string, Value) -> Result<S, Throwable>)
    : (S, Outcome<Throwable>)
  {
    if calls == [] then (s, Pass)
    else match apply(s, calls[0].0, calls[0].1)
      case Failure(e) => (s, Fail(e))
      case Success(t) => Run(t, calls[1..], apply)
  }

  /** One call, then the rest: the rest runs only if the first call returned. */
  lemma RunStep<S>(s: S, call: (string, Value), rest: seq<(string, Value)>, apply: (S, string, Value) -> Result<S, Throwable>)
    ensures var r := apply(s, call.0, call.1);
      Run(s, [call] + rest, apply) == if r.Failure? then (s, Fail(r.error)) else Run(r.value, rest, apply)
  {
    assert ([call] + rest)[1..] == rest;
  }

  /** Hydrating with two runs of calls is hydrating with the first, then, if it returned, with the second. */
  lemma {:induction false} RunAppend<S>(s: S, a: seq<(string, Value)>, b: seq<(string, Value)>,
                                        apply: (S, string, Value) -> Result<S, Throwable>)
    ensures Run(s, a + b, apply) == if Run(s, a, apply).1.Pass? then Run(Run(s, a, apply).0, b, apply) else Run(s, a, apply)
  {
    if a != [] {
      assert (a + b)[1..] == a[1..] + b;
      match apply(s, a[0].0, a[0].1)
      case Failure(e) =>
      case Success(t) => RunAppend(t, a[1..], b, apply);
    } else {
      assert a + b == b;
    }
  }

  // ----------------------------------------------------------- camelToSnake

  /** `preg_replace('/[A-Z]/', '_$0', $s)`: an underscore before every ASCII capital. */
  function Underscored(s: string): string
  {
    if s == [] then [] else (if IsUpper(s[0]) then ['_', s[0]] else [s[0]]) + Underscored(s[1..])
  }

  /** `camelToSnake` */
  function CamelToSnake(input: string): (r: string)
    ensures forall i | 0 <= i < |r| :: !IsUpper(r[i])
  {
    ToLower(Underscored(LcFirst(input)))
  }

  function UpperCount(s: string): nat
  {
    if s == [] then 0 else (if IsUpper(s[0]) then 1 else 0) + UpperCount(s[1..])
  }

  lemma {:induction false} UnderscoredLength(s: string)
    ensures |Underscored(s)| == |s| + UpperCount(s)
  {
    if s != [] {
      UnderscoredLength(s[1..]);
    }
  }

  lemma {:induction false} UnderscoredIdentity(s: string)
    requires forall i | 0 <= i < |s| :: !IsUpper(s[i])
    ensures Underscored(s) == s
  {
    if s != [] {
      UnderscoredIdentity(s[1..]);
    }
  }

  /** One underscore is added per capital after the first character, which is lowered instead. */
  lemma CamelToSnakeLength(input: string)
    requires |input| > 0
    ensures |CamelToSnake(input)| == |input| + UpperCount(input[1..])
  {
    var l := LcFirst(input);
    UnderscoredLength(l);
    assert l[1..] == input[1..];
    assert !IsUpper(l[0]);
  }

  /** Input without capitals, such as `user_id`, is returned unchanged. */
  lemma CamelToSnakeIdentity(input: string)
    requires forall i | 0 <= i < |input| :: !IsUpper(input[i])
    ensures CamelToSnake(input) == input
  {
    assert LcFirst(input) == input;
    UnderscoredIdentity(input);
  }

  lemma UserIdToSnake()
    ensures CamelToSnake("userId") == "user_id"
  {
    assert LcFirst("userId") == "userId";
    assert Underscored("userId") == "user_Id";
  }
}
