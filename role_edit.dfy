/** The round trip a role list makes through the "Add or edit relevant job
    roles" text area (main.py:290-292): joined with ", " for display, then
    split back on "," and each piece stripped. */
module RoleEdit {
  import opened Text

  /** `', '.join(roles)`, the text shown in the text area (main.py:290): an
      empty list shows as an empty text; otherwise the text is the roles,
      each but the first after one space, separated by commas. */
  function RolesToText(roles: seq<string>): (r: string)
    ensures |roles| == 0 ==> r == ""
    ensures |roles| >= 1 ==> r == Join(Padded(roles), [','])
  {
    if |roles| >= 1 then JoinWithSpace(roles); Join(roles, ", ")
    else Join(roles, ", ")
  }

  /** `[role.strip() for role in text.split(',')]` (main.py:292). */
  function TextToRoles(text: string): (r: seq<string>)
    ensures |r| == |Split(text, ',')| >= 1
    ensures forall k :: 0 <= k < |r| ==> r[k] == Strip(Split(text, ',')[k])
    ensures forall k :: 0 <= k < |r| ==> IsStripped(r[k]) && ',' !in r[k]
  {
    var pieces := Split(text, ',');
    var r := seq(|pieces|, k requires 0 <= k < |pieces| => Strip(pieces[k]));
    assert forall k :: 0 <= k < |r| ==> r[k] == Strip(pieces[k]) && ',' !in r[k] by {
      forall k | 0 <= k < |r| ensures r[k] == Strip(pieces[k]) && ',' !in r[k] {
        StripNoComma(pieces[k]);
      }
    }
    r
  }

  /** Stripping removes characters, so it adds no comma. */
  lemma StripNoComma(piece: string)
    requires ',' !in piece
    ensures ',' !in Strip(piece)
  {
    var left := TrimLeft(piece);
    NotInSlice(piece, ',', |piece| - |left|, |piece|);
    NotInSlice(left, ',', 0, |TrimRight(left)|);
  }

  /** A character absent from a text is absent from each of its slices. */
  lemma NotInSlice(s: string, c: char, i: int, j: int)
    requires 0 <= i <= j <= |s| && c !in s
    ensures c !in s[i..j]
  {
  }

  /** Each role preceded by one space. */
  function SpaceAll(roles: seq<string>): (r: seq<string>)
    ensures |r| == |roles|
  {
    seq(|roles|, k requires 0 <= k < |roles| => " " + roles[k])
  }

  /** The pieces `", ".join(roles).split(',')` gives: the first role as it
      is, every later one after a space. */
  function Padded(roles: seq<string>): (r: seq<string>)
    requires |roles| >= 1
    ensures |r| == |roles| && r[0] == roles[0]
    ensures forall k :: 1 <= k < |roles| ==> r[k] == " " + roles[k]
  {
    [roles[0]] + SpaceAll(roles[1..])
  }

  /** Putting `p` in front of a join is putting it in front of the first part. */
  lemma {:induction false} PrefixFirstPart(p: string, parts: seq<string>, sep: string)
    requires |parts| >= 1
    ensures p + Join(parts, sep) == Join([p + parts[0]] + parts[1..], sep)
  {
    var moved := [p + parts[0]] + parts[1..];
    assert moved[1..] == parts[1..];
    if |parts| > 1 {
      assert p + (parts[0] + sep + Join(parts[1..], sep)) == (p + parts[0]) + sep + Join(parts[1..], sep);
    }
  }

  /** Joining with ", " is joining with "," once every role but the first
      carries a leading space. */
  lemma {:induction false} JoinWithSpace(roles: seq<string>)
    requires |roles| >= 1
    ensures Join(roles, ", ") == Join(Padded(roles), [','])
  {
    var padded := Padded(roles);
    if |roles| == 1 {
      assert padded == [roles[0]];
    } else {
      var tail := roles[1..];
      JoinWithSpace(tail);
      var paddedTail := Padded(tail);
      PrefixFirstPart(" ", paddedTail, [',']);
      assert [" " + paddedTail[0]] + paddedTail[1..] == padded[1..];
      assert roles[0] + ", " + Join(tail, ", ") == roles[0] + [','] + (" " + Join(tail, ", "));
    }
  }

  /** A comma-free, stripped role after one space is still comma-free and
      strips back to the role. */
  lemma SpacedRole(role: string)
    requires ',' !in role && IsStripped(role)
    ensures ',' !in " " + role && Strip(" " + role) == role
  {
    StripPadded(" ", role);
    assert forall i :: 1 <= i < |" " + role| ==> (" " + role)[i] == role[i - 1];
  }

  /** With comma-free, stripped roles, the padded pieces are comma-free and
      strip back to the roles. */
  lemma PaddedPieces(roles: seq<string>)
    requires |roles| >= 1
    requires forall k :: 0 <= k < |roles| ==> ',' !in roles[k] && IsStripped(roles[k])
    ensures forall k :: 0 <= k < |roles| ==> ',' !in Padded(roles)[k] && Strip(Padded(roles)[k]) == roles[k]
  {
    var padded := Padded(roles);
    forall k | 0 <= k < |roles| ensures ',' !in padded[k] && Strip(padded[k]) == roles[k] {
      if k == 0 {
        assert padded[0] == roles[0];
        StripPadded("", roles[0]);
        assert "" + roles[0] == roles[0];
      } else {
        assert padded[k] == " " + roles[k];
        SpacedRole(roles[k]);
      }
    }
  }

  /** Editing nothing gives back the list shown, when the list is not empty
      and no role has a comma or surrounding whitespace. */
  lemma {:induction false} EditRoundTrip(roles: seq<string>)
    requires |roles| >= 1
    requires forall k :: 0 <= k < |roles| ==> ',' !in roles[k] && IsStripped(roles[k])
    ensures TextToRoles(RolesToText(roles)) == roles
  {
    JoinWithSpace(roles);
    PaddedPieces(roles);
    SplitJoin(Padded(roles), ',');
  }

  /** An empty list does not survive the edit box: it comes back as a single
      empty role, which then counts as a non-empty role list at main.py:302. */
  lemma EmptyListBecomesOneBlankRole()
    ensures TextToRoles(RolesToText([])) == [""]
  {
    assert Find("", ',') == -1;
    assert Strip("") == "";
  }
}
