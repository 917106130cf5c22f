/**
  The pure part of the element query: which of its two inputs decides the
  query, the text filter over the page's elements, and the record each element
  is turned into.
*/
module ElementQuery {
  import opened Wrappers
  import opened Driver
  import opened ToolSchema

  /** JavaScript truthiness of an optional string: present and not empty. */
  predicate Truthy(s: Option<string>)
  {
    s.Some? && s.value != ""
  }

  /** The query an element lookup runs. */
  datatype Query = BySelector(selector: string) | ByText(text: string) | NoQuery

  /**
    A truthy selector wins; the text is consulted only when the selector is
    absent, null or empty; with neither there is no query.
  */
  function PlanQuery(selector: Option<string>, text: Option<string>): (q: Query)
    ensures q.BySelector? <==> Truthy(selector)
    ensures q.BySelector? ==> q.selector == selector.value
    ensures q.ByText? <==> !Truthy(selector) && Truthy(text)
    ensures q.ByText? ==> q.text == text.value
  {
    if Truthy(selector) then BySelector(selector.value)
    else if Truthy(text) then ByText(text.value)
    else NoQuery
  }

  /** JavaScript's `hay.includes(needle)`. */
  predicate Includes(hay: string, needle: string)
    decreases |hay|
  {
    needle <= hay || (hay != [] && Includes(hay[1..], needle))
  }

  /** `needle` occurs in `hay` starting at index `i`. */
  ghost predicate OccursAt(hay: string, needle: string, i: int)
  {
    0 <= i && i + |needle| <= |hay| && hay[i..i + |needle|] == needle
  }

  /** `Includes` holds exactly when the needle occurs at some index of the haystack. */
  lemma {:induction false} IncludesIffOccurs(hay: string, needle: string)
    ensures Includes(hay, needle) <==> exists i :: OccursAt(hay, needle, i)
  {
    if needle <= hay {
      assert OccursAt(hay, needle, 0);
    } else if hay == [] {
    } else {
      IncludesIffOccurs(hay[1..], needle);
      if Includes(hay[1..], needle) {
        var i :| OccursAt(hay[1..], needle, i);
        assert hay[i + 1..i + 1 + |needle|] == hay[1..][i..i + |needle|];
        assert OccursAt(hay, needle, i + 1);
      }
      if exists i :: OccursAt(hay, needle, i) {
        var i :| OccursAt(hay, needle, i);
        assert i != 0;
        assert hay[1..][i - 1..i - 1 + |needle|] == hay[i..i + |needle|];
        assert OccursAt(hay[1..], needle, i - 1);
      }
    }
  }

  /** The text filter of the query: the element has visible text, and it includes `text`. */
  predicate HasText(el: DomElement, text: string)
  {
    el.innerText.Some? && Includes(el.innerText.value, text)
  }

  /** `a` is `b` with some elements dropped and the rest in their order. */
  ghost predicate IsSubsequence<T>(a: seq<T>, b: seq<T>)
    decreases |b|
  {
    a == [] || (b != [] && ((a[0] == b[0] && IsSubsequence(a[1..], b[1..])) || IsSubsequence(a, b[1..])))
  }

  /**
    The elements that pass the text filter, in document order: a subsequence
    of the input holding every matching element as often as the input does
    and no other element.
  */
  function SelectByText(els: seq<DomElement>, text: string): (r: seq<DomElement>)
    ensures IsSubsequence(r, els)
    ensures forall i :: 0 <= i < |r| ==> HasText(r[i], text)
    ensures forall e :: multiset(r)[e] == if HasText(e, text) then multiset(els)[e] else 0
  {
    if els == [] then []
    else
      var rest := SelectByText(els[1..], text);
      assert els == [els[0]] + els[1..];
      if HasText(els[0], text) then
        assert ([els[0]] + rest)[1..] == rest;
        [els[0]] + rest
      else rest
  }

  /** The exception a page script raises when it reads an unbound name `text`. */
  const UNBOUND_TEXT := "ReferenceError: text is not defined"

  /**
    The text query's filter as the page runs it. The callback is sent to the
    page as source text, so its `text` is not the tool's argument: it is
    whatever the page's global scope binds under that name (`pageText`, given
    by its string form, None when nothing is bound). An element without visible
    text is skipped before `text` is read; the first element with visible text
    reads it, and an unbound `text` raises there.
  */
  function FilterInPage(els: seq<DomElement>, pageText: Option<string>): (r: Fallible<seq<DomElement>>)
    ensures pageText.Some? ==> r == Returns(SelectByText(els, pageText.value))
    ensures pageText.None? ==> (r.Throws? <==> exists i :: 0 <= i < |els| && els[i].innerText.Some?)
    ensures pageText.None? ==> r == Throws(UNBOUND_TEXT) || r == Returns([])
  {
    if els == [] then Returns([])
    else if els[0].innerText.None? then
      var r := FilterInPage(els[1..], pageText);
      assert forall i :: 0 < i < |els| ==> els[i] == els[1..][i - 1];
      r
    else if pageText.None? then Throws(UNBOUND_TEXT)
    else
      match FilterInPage(els[1..], pageText)
      case Throws(e) => Throws(e)
      case Returns(rest) => Returns(if Includes(els[0].innerText.value, pageText.value) then [els[0]] + rest else rest)
  }

  /**
    The evident intent and the code part ways on a page with a `Login` button:
    without a page-side `text`, the filter raises; filtering by the query text
    would have kept the button.
  */
  lemma LoginButtonQueryRaises(box: Rect)
    ensures var button := DomElement("BUTTON", Some("Login"), [], box);
      && SelectByText([button], "Login") == [button]
      && FilterInPage([button], None) == Throws(UNBOUND_TEXT)
  {
    var button := DomElement("BUTTON", Some("Login"), [], box);
    assert Includes("Login", "Login");
  }

  /** The record the query builds for one element; missing visible text becomes "". */
  function Describe(el: DomElement): (info: ElementInfo)
  {
    ElementInfo(el.tagName, el.innerText.GetOr(""), el.attributes, el.rect)
  }

  /** The records of a sequence of elements, one per element and in the same order. */
  function DescribeAll(els: seq<DomElement>): (r: seq<ElementInfo>)
    ensures |r| == |els|
    ensures forall i :: 0 <= i < |els| ==> r[i] == Describe(els[i])
  {
    seq(|els|, i requires 0 <= i < |els| => Describe(els[i]))
  }

  /**
    Every record a text query returns carries a text that includes the
    query's text, and its tag, attributes and box are those of an element of
    the page.
  */
  lemma TextQueryRecordsMatch(els: seq<DomElement>, text: string)
    ensures forall info :: info in DescribeAll(SelectByText(els, text)) ==>
      Includes(info.text, text) && exists el :: el in els && info == Describe(el)
  {
    var picked := SelectByText(els, text);
    var records := DescribeAll(picked);
    forall info | info in records
      ensures Includes(info.text, text) && exists el :: el in els && info == Describe(el)
    {
      var i :| 0 <= i < |records| && records[i] == info;
      assert HasText(picked[i], text);
      assert multiset(picked)[picked[i]] > 0;
      assert picked[i] in els;
    }
  }
}
