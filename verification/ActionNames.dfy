/**
  Namespaced action names "prefix.action" of src/gtkactionmuxer.c, which splits a name at its first dot.
 */
module ActionNames {
  import opened Wrappers

  function FullName(prefix: string, action: string): string {
    prefix + "." + action
  }

  // strchr (name, '.')
  function FirstDot(name: string): (i: nat)
    ensures i <= |name| && '.' !in name[..i] && (i < |name| ==> name[i] == '.')
  {
    if name == [] then 0 else if name[0] == '.' then 0 else
      var i := FirstDot(name[1..]);
      assert name[..i + 1] == [name[0]] + name[1..][..i];
      i + 1
  }

  datatype Split = Split(prefix: string, action: string)

  // gtk_action_muxer_find_group's split of a name; None when it has no dot.
  function SplitName(name: string): (r: Option<Split>)
    ensures r.Some? ==> name == FullName(r.value.prefix, r.value.action) && '.' !in r.value.prefix
    ensures r.None? ==> '.' !in name
  {
    var i := FirstDot(name);
    if i < |name| then
      assert name == name[..i] + [name[i]] + name[i + 1..];
      Some(Split(name[..i], name[i + 1..]))
    else
      assert name[..i] == name;
      None
  }

  lemma {:induction false} FirstDotOf(prefix: string, rest: string)
    requires '.' !in prefix
    ensures FirstDot(prefix + "." + rest) == |prefix|
  {
    if prefix != [] {
      FirstDotOf(prefix[1..], rest);
      assert (prefix + "." + rest)[1..] == prefix[1..] + "." + rest;
    }
  }

  // A prefix without a dot is recovered from the full name, whatever the action is called.
  lemma SplitFull(prefix: string, action: string)
    requires '.' !in prefix
    ensures SplitName(FullName(prefix, action)) == Some(Split(prefix, action))
  {
    var name := FullName(prefix, action);
    FirstDotOf(prefix, action);
    assert name[..|prefix|] == prefix && name[|prefix| + 1..] == action;
  }
}
