/** StringUtil: blank-string test and joining an object array with a separator. */
module StringUtil {
  import opened Wrappers
  import opened JavaText
  import opened JavaTypes

  /** Every character is one String.trim removes. */
  predicate IsBlank(s: string)
  {
    forall i :: 0 <= i < |s| ==> IsTrimmable(s[i])
  }

  /**
   * isEmptyOrNull: null, or nothing left after String.trim; stated here by the characters
   * (a string trims to nothing exactly when it is blank, see IsEmptyOrNullTrims).
   */
  function IsEmptyOrNull(s: Option<string>): (r: bool)
  {
    s.None? || IsBlank(s.value)
  }

  /** isEmptyOrNull holds exactly for null and for the strings that String.trim empties. */
  lemma IsEmptyOrNullTrims(s: Option<string>)
    ensures IsEmptyOrNull(s) <==> s.None? || Trim(s.value) == []
  {
    if s.Some? {
      TrimEmptyIff(s.value);
    }
  }

  /**
   * The loop of formatArrayToString over the elements still to visit: null elements are
   * skipped, and while the accumulated text is empty the next element replaces it without
   * a separator.
   */
  function JoinFrom(elems: seq<Value>, sep: string, acc: string): string
  {
    if elems == [] then acc
    else if elems[0].Null? then JoinFrom(elems[1..], sep, acc)
    else if acc == "" then JoinFrom(elems[1..], sep, ToString(elems[0]))
    else JoinFrom(elems[1..], sep, acc + sep + ToString(elems[0]))
  }

  /** formatArrayToString(input, character, startIndex, endIndex), with its error cases. */
  function FormatRange(input: Option<seq<Value>>, character: Option<string>, startIndex: int, endIndex: int): Result<string>
  {
    if input.None? || |input.value| == 0 then Ok("")
    else if startIndex < 0 then Err(IllegalArgument("startIndex can't be less than 0 !"))
    else if endIndex <= startIndex then Err(IllegalArgument("endIndex can't be less or equal startIndex!"))
    else if endIndex > |input.value| then Err(IndexOutOfBounds)
    else Ok(JoinFrom(input.value[startIndex..endIndex], if character.None? then " " else character.value, ""))
  }

  method FormatArrayRange(input: Option<seq<Value>>, character: Option<string>, startIndex: int, endIndex: int)
    returns (r: Result<string>)
    ensures r == FormatRange(input, character, startIndex, endIndex)
  {
    if input.None? || |input.value| == 0 {
      return Ok("");
    }
    if startIndex < 0 {
      return Err(IllegalArgument("startIndex can't be less than 0 !"));
    }
    if endIndex <= startIndex {
      return Err(IllegalArgument("endIndex can't be less or equal startIndex!"));
    }
    var sep := if character.None? then " " else character.value;
    var a := input.value;
    var tmp := "";
    var i := startIndex;
    while i < endIndex
      invariant startIndex <= i <= endIndex && (i > startIndex ==> i <= |a|)
      invariant endIndex <= |a| ==> JoinFrom(a[startIndex..endIndex], sep, "") == JoinFrom(a[i..endIndex], sep, tmp)
    {
      if i >= |a| {
        return Err(IndexOutOfBounds);
      }
      assert endIndex <= |a| ==> a[i..endIndex][1..] == a[i + 1..endIndex];
      if a[i].Null? {
        i := i + 1;
        continue;
      }
      if tmp == "" {
        tmp := ToString(a[i]);
        i := i + 1;
        continue;
      }
      tmp := tmp + sep + ToString(a[i]);
      i := i + 1;
    }
    assert a[i..endIndex] == [];
    return Ok(tmp);
  }

  /** formatArrayToString(input, character): the whole array; a null array is dereferenced. */
  method FormatArray(input: Option<seq<Value>>, character: Option<string>) returns (r: Result<string>)
    ensures input.None? ==> r == Err(NullPointer)
    ensures input.Some? ==> r == Ok(JoinFrom(input.value, if character.None? then " " else character.value, ""))
  {
    if input.None? {
      return Err(NullPointer);
    }
    r := FormatArrayRange(input, character, 0, |input.value|);
    assert input.value[0..|input.value|] == input.value;
  }

  /** The text of each non-null element, in order. */
  function Texts(elems: seq<Value>): (r: seq<string>)
    ensures |r| <= |elems|
  {
    if elems == [] then []
    else if elems[0].Null? then Texts(elems[1..])
    else [ToString(elems[0])] + Texts(elems[1..])
  }

  /** The usual join: the strings with the separator between consecutive ones. */
  function Join(xs: seq<string>, sep: string): string
  {
    if xs == [] then ""
    else if |xs| == 1 then xs[0]
    else Join(xs[..|xs| - 1], sep) + sep + xs[|xs| - 1]
  }

  predicate NoEmptyTexts(elems: seq<Value>)
  {
    forall i :: 0 <= i < |elems| && !elems[i].Null? ==> ToString(elems[i]) != ""
  }

  lemma JoinNonEmpty(xs: seq<string>, sep: string)
    requires xs != [] && xs[|xs| - 1] != ""
    ensures Join(xs, sep) != ""
  {
  }

  /**
   * When no element prints as the empty string, formatArrayToString is the usual join of
   * the non-null elements' texts: null elements leave no trace, not even a separator.
   */
  lemma {:induction false} JoinFromIsJoin(elems: seq<Value>, sep: string, xs: seq<string>)
    requires NoEmptyTexts(elems)
    requires forall i :: 0 <= i < |xs| ==> xs[i] != ""
    ensures JoinFrom(elems, sep, Join(xs, sep)) == Join(xs + Texts(elems), sep)
  {
    if elems == [] {
      assert xs + [] == xs;
    } else {
      var rest := elems[1..];
      NoEmptyTextsTail(elems);
      if elems[0].Null? {
        JoinFromIsJoin(rest, sep, xs);
      } else {
        var ys := xs + [ToString(elems[0])];
        JoinFromTextStep(elems, sep, xs);
        JoinFromIsJoin(rest, sep, ys);
      }
    }
  }

  lemma NoEmptyTextsTail(elems: seq<Value>)
    requires elems != [] && NoEmptyTexts(elems)
    ensures NoEmptyTexts(elems[1..])
    ensures !elems[0].Null? ==> ToString(elems[0]) != ""
  {
    var rest := elems[1..];
    forall i | 0 <= i < |rest| && !rest[i].Null? ensures ToString(rest[i]) != "" {
      assert rest[i] == elems[i + 1];
    }
  }

  /** One non-null element moves its text from the array onto the joined strings. */
  lemma JoinFromTextStep(elems: seq<Value>, sep: string, xs: seq<string>)
    requires elems != [] && !elems[0].Null? && ToString(elems[0]) != ""
    requires forall i :: 0 <= i < |xs| ==> xs[i] != ""
    ensures JoinFrom(elems, sep, Join(xs, sep)) == JoinFrom(elems[1..], sep, Join(xs + [ToString(elems[0])], sep))
    ensures (xs + [ToString(elems[0])]) + Texts(elems[1..]) == xs + Texts(elems)
    ensures forall i :: 0 <= i < |xs + [ToString(elems[0])]| ==> (xs + [ToString(elems[0])])[i] != ""
  {
    var t := ToString(elems[0]);
    JoinSnocText(xs, t, sep);
    assert Texts(elems) == [t] + Texts(elems[1..]);
    assert (xs + [t]) + Texts(elems[1..]) == xs + ([t] + Texts(elems[1..]));
  }

  /** Joining one more non-empty text onto a join of non-empty texts. */
  lemma JoinSnocText(xs: seq<string>, t: string, sep: string)
    requires t != ""
    requires forall i :: 0 <= i < |xs| ==> xs[i] != ""
    ensures Join(xs + [t], sep) == if Join(xs, sep) == "" then t else Join(xs, sep) + sep + t
  {
    var ys := xs + [t];
    if xs == [] {
      assert Join(ys, sep) == t;
    } else {
      JoinNonEmpty(xs, sep);
      assert ys[..|ys| - 1] == xs;
    }
  }

  /** formatArrayToString over a whole array without empty texts is the usual join. */
  lemma FormatArrayIsJoin(elems: seq<Value>, sep: string)
    requires NoEmptyTexts(elems)
    ensures JoinFrom(elems, sep, "") == Join(Texts(elems), sep)
  {
    JoinFromIsJoin(elems, sep, []);
    assert [] + Texts(elems) == Texts(elems);
  }

  /**
   * Elements printing as the empty string before the first non-empty one vanish, but
   * an empty element after it still contributes its separator.
   */
  lemma EmptyTextAfterFirstKeepsSeparator(sep: string)
    ensures JoinFrom([VStr(""), VStr("a"), VStr(""), VStr("b")], sep, "") == "a" + sep + sep + "b"
  {
    var e := [VStr(""), VStr("a"), VStr(""), VStr("b")];
    assert JoinFrom(e, sep, "") == JoinFrom(e[1..], sep, "");
    assert JoinFrom(e[1..], sep, "") == JoinFrom(e[2..], sep, "a");
    assert "a" + sep + ToString(VStr("")) == "a" + sep;
    assert JoinFrom(e[2..], sep, "a") == JoinFrom(e[3..], sep, "a" + sep);
    assert "a" + sep != "";
    assert JoinFrom(e[3..], sep, "a" + sep) == JoinFrom([], sep, "a" + sep + sep + "b");
  }
}
