/** Stripping quantization tokens off the end of a model name. */
module QuantSuffix {
  import opened Sequences

  predicate IsSeparator(c: char) {
    c == '.' || c == '_' || c == '-'
  }

  /** Characters compared without regard to case. */
  type Same = (char, char) -> bool

  /** No character of a token passes for a separator. */
  ghost predicate Plain(same: Same, tokens: seq<string>) {
    forall i, j, c :: 0 <= i < |tokens| && 0 <= j < |tokens[i]| && IsSeparator(c) ==> !same(c, tokens[i][j])
  }

  /** A separator and the token end the name. */
  predicate EndsIn(same: Same, name: string, token: string) {
    |name| > |token| && IsSeparator(name[|name| - |token| - 1])
    && forall j :: 0 <= j < |token| ==> same(name[|name| - |token| + j], token[j])
  }

  predicate Ends(same: Same, name: string, tokens: seq<string>) {
    exists i :: 0 <= i < |tokens| && EndsIn(same, name, tokens[i])
  }

  function StripToken(same: Same, name: string, token: string): string {
    if EndsIn(same, name, token) then name[..|name| - |token| - 1] else name
  }

  /** The name with its last separator and what follows removed. */
  function Chopped(name: string): string {
    if name == "" then "" else if IsSeparator(Last(name)) then Init(name) else Chopped(Init(name))
  }

  lemma {:induction false} ChoppedShorter(name: string)
    ensures |Chopped(name)| <= |name|
    ensures name != "" ==> |Chopped(name)| < |name|
  {
    if name != "" && !IsSeparator(Last(name)) {
      ChoppedShorter(Init(name));
    }
  }

  /** The reference: chop while some token ends the name, whatever the tokens' order. */
  function StripAll(same: Same, name: string, tokens: seq<string>): string
    decreases |name|
  {
    ChoppedShorter(name);
    if Ends(same, name, tokens) then StripAll(same, Chopped(name), tokens) else name
  }

  /** A plain token that ends the name ends it at its last separator. */
  lemma {:induction false} TokenIsChop(same: Same, name: string, token: string)
    requires EndsIn(same, name, token)
    requires forall j, c :: 0 <= j < |token| && IsSeparator(c) ==> !same(c, token[j])
    ensures name[..|name| - |token| - 1] == Chopped(name)
  {
    if token == "" {
      assert name[..|name| - 1] == Init(name);
    } else {
      assert same(name[|name| - |token| + (|token| - 1)], token[|token| - 1]);
      assert !IsSeparator(Last(name));
      var shorter := Init(token);
      forall j | 0 <= j < |shorter| ensures same(Init(name)[|Init(name)| - |shorter| + j], shorter[j]) {
        assert same(name[|name| - |token| + j], token[j]);
      }
      TokenIsChop(same, Init(name), shorter);
      assert name[..|name| - |token| - 1] == Init(name)[..|Init(name)| - |shorter| - 1];
    }
  }

  method StripKnownQuantSuffix(same: Same, name: string, tokens: seq<string>) returns (out: string)
    requires Plain(same, tokens)
    ensures out == StripAll(same, name, tokens)
  {
    out := name;
    var changed := true;
    while changed
      invariant StripAll(same, out, tokens) == StripAll(same, name, tokens)
      invariant !changed ==> !Ends(same, out, tokens)
      decreases |out|, changed
    {
      changed := false;
      ghost var before := out;
      for i := 0 to |tokens|
        invariant StripAll(same, out, tokens) == StripAll(same, name, tokens)
        invariant |out| <= |before| && (changed ==> |out| < |before|)
        invariant !changed ==> forall k :: 0 <= k < i ==> !EndsIn(same, out, tokens[k])
      {
        var newer := StripToken(same, out, tokens[i]);
        if newer != out {
          assert Ends(same, out, tokens);
          TokenIsChop(same, out, tokens[i]);
          out := newer;
          changed := true;
        }
      }
    }
  }

  /** Main result: nothing known is left at the end, and the order of the tokens does not matter. */
  lemma {:induction false} StripIsFixpoint(same: Same, name: string, a: seq<string>, b: seq<string>)
    requires forall t :: t in a <==> t in b
    ensures !Ends(same, StripAll(same, name, a), a)
    ensures StripAll(same, name, a) == StripAll(same, name, b)
    ensures StripAll(same, StripAll(same, name, a), a) == StripAll(same, name, a)
    decreases |name|
  {
    EndsByMember(same, name, a, b);
    EndsByMember(same, name, b, a);
    ChoppedShorter(name);
    if Ends(same, name, a) {
      StripIsFixpoint(same, Chopped(name), a, b);
    }
  }

  lemma EndsByMember(same: Same, name: string, a: seq<string>, b: seq<string>)
    requires forall t :: t in a ==> t in b
    ensures Ends(same, name, a) ==> Ends(same, name, b)
  {
    if i :| 0 <= i < |a| && EndsIn(same, name, a[i]) {
      assert a[i] in b;
    }
  }

  /** What is stripped is a suffix: the result is always a prefix of the name. */
  lemma {:induction false} StripKeepsPrefix(same: Same, name: string, tokens: seq<string>)
    ensures StripAll(same, name, tokens) <= name
    decreases |name|
  {
    ChoppedShorter(name);
    if Ends(same, name, tokens) {
      StripKeepsPrefix(same, Chopped(name), tokens);
      ChoppedIsPrefix(name);
    }
  }

  lemma {:induction false} ChoppedIsPrefix(name: string)
    ensures Chopped(name) <= name
  {
    if name != "" && !IsSeparator(Last(name)) {
      ChoppedIsPrefix(Init(name));
    }
  }

  /** `ending` spells the token. */
  ghost predicate Spells(same: Same, ending: string, token: string) {
    |ending| == |token| && forall j :: 0 <= j < |token| ==> same(ending[j], token[j])
  }

  lemma PartsOf(same: Same, name: string, token: string) returns (base: string, sep: char, ending: string)
    requires EndsIn(same, name, token)
    ensures name == base + [sep] + ending && (sep == '.' || sep == '_' || sep == '-') && Spells(same, ending, token)
  {
    var n := |name| - |token| - 1;
    base, sep, ending := name[..n], name[n], name[n + 1..];
    forall j | 0 <= j < |token| ensures same(ending[j], token[j]) {
      assert ending[j] == name[n + 1 + j];
    }
  }

  lemma PartsEnd(same: Same, base: string, sep: char, ending: string, token: string)
    requires (sep == '.' || sep == '_' || sep == '-') && Spells(same, ending, token)
    ensures EndsIn(same, base + [sep] + ending, token)
  {
    var name := base + [sep] + ending;
    assert name[|name| - |token| - 1] == sep;
    forall j | 0 <= j < |token| ensures same(name[|name| - |token| + j], token[j]) {
      assert name[|name| - |token| + j] == ending[j];
    }
  }

  lemma {:induction false} ChoppedAt(base: string, sep: char, ending: string)
    requires sep == '.' || sep == '_' || sep == '-'
    requires forall c <- ending :: c != '.' && c != '_' && c != '-'
    ensures Chopped(base + [sep] + ending) == base
  {
    var name := base + [sep] + ending;
    if ending == "" {
      assert Init(name) == base;
    } else {
      assert Last(name) == Last(ending) && Last(ending) in ending;
      assert Init(name) == base + [sep] + Init(ending);
      assert forall c <- Init(ending) :: c in ending;
      ChoppedAt(base, sep, Init(ending));
    }
  }

  /**
   Main result: a dot, underscore or dash and a known token come off the end, and what is
   left is stripped the same way; a name that ends in no such thing stays as it is.
   */
  lemma StripExactly(same: Same, name: string, tokens: seq<string>)
    requires forall token <- tokens, c <- token, sep ::
      sep == '.' || sep == '_' || sep == '-' ==> !same(sep, c)
    ensures forall base, sep, ending, token <- tokens ::
      name == base + [sep] + ending && (sep == '.' || sep == '_' || sep == '-') && Spells(same, ending, token) ==>
        StripAll(same, name, tokens) == StripAll(same, base, tokens)
    ensures (forall base, sep, ending, token <- tokens ::
        !(name == base + [sep] + ending && (sep == '.' || sep == '_' || sep == '-') && Spells(same, ending, token)))
      ==> StripAll(same, name, tokens) == name
  {
    forall base, sep, ending, token | token in tokens && name == base + [sep] + ending
        && (sep == '.' || sep == '_' || sep == '-') && Spells(same, ending, token)
      ensures StripAll(same, name, tokens) == StripAll(same, base, tokens)
    {
      PartsEnd(same, base, sep, ending, token);
      forall c | c in ending ensures c != '.' && c != '_' && c != '-' {
        var j :| 0 <= j < |ending| && ending[j] == c;
        assert token[j] in token && same(ending[j], token[j]);
      }
      ChoppedAt(base, sep, ending);
      var i :| 0 <= i < |tokens| && tokens[i] == token;
      assert Ends(same, name, tokens);
    }
    if Ends(same, name, tokens) {
      var i :| 0 <= i < |tokens| && EndsIn(same, name, tokens[i]);
      var base, sep, ending := PartsOf(same, name, tokens[i]);
      assert tokens[i] in tokens;
    }
  }
}
