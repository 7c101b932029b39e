/** The options of a `CustomSelect` and how the trigger text is derived from
    them: the `Option` record, the first-match lookup done with
    `Array.prototype.find`, and the label expression of the trigger. */
module SelectOptions {
  import opened Optional

  /** One selectable entry: `value` is the key, `caption` the text shown (the source's `label`, a reserved word in Dafny). */
  datatype Opt = Opt(value: string, caption: string)

  /** The placeholder used when the caller passes none. */
  const DefaultPlaceholder: string := "Select an option"

  /** True when some option carries the key `v`. */
  ghost predicate HasValue(options: seq<Opt>, v: string) {
    exists i :: 0 <= i < |options| && options[i].value == v
  }

  /** `i` is the lowest index whose option carries the key `v`. */
  ghost predicate FirstMatchAt(options: seq<Opt>, v: string, i: int) {
    0 <= i < |options| && options[i].value == v &&
    forall j :: 0 <= j < i ==> options[j].value != v
  }

  /** `options.find(opt => opt.value === v)`: a forward scan that stops at the
      first option whose key is `v`, or yields nothing. */
  function Find(options: seq<Opt>, v: string): (r: Option<Opt>)
    ensures r.None? <==> !HasValue(options, v)
    ensures r.Some? ==> exists i :: FirstMatchAt(options, v, i) && options[i] == r.value
  {
    if options == [] then None
    else if options[0].value == v then
      assert FirstMatchAt(options, v, 0);
      Some(options[0])
    else
      var r := Find(options[1..], v);
      assert r.Some? ==> exists i :: FirstMatchAt(options, v, i) && options[i] == r.value by {
        if r.Some? {
          var i :| FirstMatchAt(options[1..], v, i) && options[1..][i] == r.value;
          assert FirstMatchAt(options, v, i + 1);
        }
      }
      assert r.None? ==> !HasValue(options, v) by {
        if r.None? {
          assert forall k :: 1 <= k < |options| ==> options[k] == options[1..][k - 1];
        }
      }
      r
  }

  /** The text of the trigger, `value ? options.find(...)?.label : placeholder`.
      The empty string is the only falsy string, so it alone selects the
      placeholder; a key that no option carries yields no text at all. */
  function TriggerLabel(value: string, options: seq<Opt>, placeholder: string): (r: Option<string>)
    ensures value == "" ==> r == Some(placeholder)
    ensures value != "" ==> (r.Some? <==> HasValue(options, value))
    ensures forall i :: value != "" && FirstMatchAt(options, value, i) ==> r == Some(options[i].caption)
  {
    if value == "" then Some(placeholder)
    else
      match Find(options, value)
      case None => None
      case Some(o) =>
        forall i | FirstMatchAt(options, value, i) ensures options[i] == o {
          FirstMatchUnique(options, value, i);
        }
        Some(o.caption)
  }

  /** The labels of the rows, one per option, in input order. */
  function RowLabels(options: seq<Opt>): (labels: seq<string>)
    ensures |labels| == |options|
    ensures forall i :: 0 <= i < |options| ==> labels[i] == options[i].caption
  {
    if options == [] then [] else [options[0].caption] + RowLabels(options[1..])
  }

  /** The first match is unique, so `Find` lands exactly on it. */
  lemma FirstMatchUnique(options: seq<Opt>, v: string, i: int)
    requires FirstMatchAt(options, v, i)
    ensures Find(options, v) == Some(options[i])
  {
    var r := Find(options, v);
    var k :| FirstMatchAt(options, v, k) && options[k] == r.value;
    assert !(k < i) && !(i < k);
  }

  /** First match wins across a concatenation: options earlier in the list
      shadow later ones that carry the same key. */
  lemma {:induction false} FindAppend(front: seq<Opt>, back: seq<Opt>, v: string)
    ensures Find(front + back, v) == if Find(front, v).Some? then Find(front, v) else Find(back, v)
  {
    if front == [] {
      assert front + back == back;
    } else {
      assert (front + back)[0] == front[0];
      assert (front + back)[1..] == front[1..] + back;
      if front[0].value != v {
        FindAppend(front[1..], back, v);
      }
    }
  }

  /** A matching option with an empty key is never consulted: an empty
      `value` always shows the placeholder. */
  lemma EmptyValueShowsPlaceholder(options: seq<Opt>, placeholder: string)
    requires HasValue(options, "")
    ensures TriggerLabel("", options, placeholder) == Some(placeholder)
    ensures Find(options, "").Some?
  {
  }

  /** An unmatched non-empty key shows no text, which differs from showing
      the placeholder. */
  lemma UnmatchedValueShowsNothing(value: string, options: seq<Opt>, placeholder: string)
    requires value != "" && !HasValue(options, value)
    ensures TriggerLabel(value, options, placeholder) == None
    ensures TriggerLabel(value, options, placeholder) != Some(placeholder)
  {
  }

  /** Two options "a"/"Alpha" and "b"/"Beta": key "b" shows "Beta", and the
      unknown key "z" shows nothing rather than the placeholder. */
  lemma TwoOptionExample()
    ensures TriggerLabel("b", [Opt("a", "Alpha"), Opt("b", "Beta")], DefaultPlaceholder) == Some("Beta")
    ensures TriggerLabel("z", [Opt("a", "Alpha"), Opt("b", "Beta")], DefaultPlaceholder) == None
  {
    var options := [Opt("a", "Alpha"), Opt("b", "Beta")];
    assert FirstMatchAt(options, "b", 1);
    assert !HasValue(options, "z");
  }
}
