/** What a struct tag means, said of its words rather than of the loop that reads them. */
module RlpTags {
  import opened Wrappers
  import opened RlpOps
  import opened RlpFields

  /** A word that parseTag takes on a field of this type. */
  predicate WordFits(text: Text, ty: Ty, isLast: bool, w: string) {
    || w in ["", "-", "optional"]
    || (NilWord(w) && Underlying(ty).TPtr?)
    || (w == TailWord(text) && isLast && Underlying(ty).TSlice?)
  }

  /** A byte is a uint8 or any type defined from one. */
  lemma ByteIff(ty: Ty)
    ensures IsByte(ty) <==> ty == TUint(1) || (ty.TNamed? && IsByte(ty.under))
  {
  }

  /** An empty string stands for nil where values are strings: numbers, booleans, strings and byte sequences. */
  lemma NilStringIff(ty: Ty)
    ensures var u := Underlying(ty);
            DefaultNilValue(ty) == NilString <==>
              u.TBool? || u.TUint? || u.TPlatformUint? || u.TString? || ((u.TSlice? || u.TArray?) && IsByte(u.elem))
  {
  }

  /** What a nil word asks for: a kind by name, or the kind of nil for the type. */
  function KindAsked(text: Text, ty: Ty, w: string): NilKind {
    if w == "nil" && Underlying(ty).TPtr? then NilWordKind(text, ty)
    else if w == "nilList" then NilList
    else NilString
  }

  /**
   A tag is accepted exactly when every word fits the field and optional and tail are not both there;
   each flag then says that its word is there, wherever it is, and the last nil word gives the kind.
   */
  lemma {:induction false} ParseIff(text: Text, ty: Ty, isLast: bool, words: seq<string>)
    ensures var r := ParseWords(text, ty, isLast, words);
            && (r.Ok? <==> AllFit(text, ty, isLast, words) && !("optional" in words && TailWord(text) in words))
            && (r.Ok? ==> r.value == Tags(KindAsked(text, ty, LastNil(words)), LastNil(words) != "", "optional" in words,
                                          TailWord(text) in words, "-" in words))
    decreases |words|
  {
    hide ParseWord, WordFits, TailWord, KindAsked, NilWord, AllFit;
    EmptyWords(text, ty, isLast);
    if words != [] {
      var n := |words| - 1;
      ParseIff(text, ty, isLast, words[..n]);
      LastWord(text, ty, isLast, words);
      if ParseWords(text, ty, isLast, words[..n]).Ok? {
        WordIff(text, ty, isLast, words[n], ParseWords(text, ty, isLast, words[..n]).value);
      }
    }
  }

  predicate AllFit(text: Text, ty: Ty, isLast: bool, words: seq<string>) {
    forall i :: 0 <= i < |words| ==> WordFits(text, ty, isLast, words[i])
  }

  lemma EmptyWords(text: Text, ty: Ty, isLast: bool)
    ensures !NilWord("") && KindAsked(text, ty, "") == NilString && AllFit(text, ty, isLast, [])
    ensures TailWord(text) != "optional"
  {
    assert TailWord(text)[0] == 't';
  }

  lemma LastWord(text: Text, ty: Ty, isLast: bool, words: seq<string>)
    requires words != []
    ensures var n := |words| - 1;
            && (AllFit(text, ty, isLast, words) <==> AllFit(text, ty, isLast, words[..n]) && WordFits(text, ty, isLast, words[n]))
            && forall w: string :: w in words <==> w in words[..n] || w == words[n]
  {
    hide WordFits;
    assert words == words[..|words| - 1] + [words[|words| - 1]];
  }

  /** The words that parseTag knows differ. */
  lemma WordsDiffer(text: Text)
    ensures var tail := TailWord(text);
            tail !in ["", "-", "optional"] && !NilWord(tail) && !NilWord("") && !NilWord("-") && !NilWord("optional")
  {
    assert TailWord(text)[0] == 't' && |TailWord(text)| == 4;
    assert |"nil"| == 3 && |"nilString"| == 9 && |"nilList"| == 7 && |"optional"| == 8 && |"-"| == 1;
  }

  lemma WordIff(text: Text, ty: Ty, isLast: bool, w: string, ts: Tags)
    requires !(ts.optional && ts.tail)
    ensures var r := ParseWord(text, ty, isLast, w, ts);
            && (r.Ok? <==> WordFits(text, ty, isLast, w)
                           && !(w == "optional" && ts.tail) && !(w == TailWord(text) && ts.optional))
            && (r.Ok? ==>
                r.value == Tags(if NilWord(w) then KindAsked(text, ty, w) else ts.nilKind, ts.nilOK || NilWord(w),
                                ts.optional || w == "optional", ts.tail || w == TailWord(text), ts.ignored || w == "-"))
  {
    hide TailWord, NilWordKind, DefaultNilValue, Underlying;
    WordsDiffer(text);
  }

  predicate IsKept(text: Text, fs: seq<TyField>, last: nat, k: Kept) {
    k.index < |fs| && fs[k.index].exported && "-" !in fs[k.index].tag
    && ParseWords(text, fs[k.index].ty, k.index == last, fs[k.index].tag) == Ok(k.tags)
  }

  /** The fields kept are the exported ones whose tag has no "-", in their order and with their own tags. */
  lemma {:induction false} KeptIff(text: Text, fs: seq<TyField>, last: nat)
    requires KeptFields(text, fs, last).Ok?
    ensures var ks := KeptFields(text, fs, last).value;
            && (forall k: Kept :: k in ks <==> IsKept(text, fs, last, k))
            && forall i, j :: 0 <= i < j < |ks| ==> ks[i].index < ks[j].index
    decreases |fs|
  {
    hide ParseWords;
    if fs != [] {
      var n := |fs| - 1;
      KeptIff(text, fs[..n], last);
      var before := KeptFields(text, fs[..n], last).value;
      forall i | 0 <= i < |before|
        ensures before[i].index < n
      {
        assert before[i] in before;
      }
      ParseIff(text, fs[n].ty, n == last, fs[n].tag);
    }
  }
}
