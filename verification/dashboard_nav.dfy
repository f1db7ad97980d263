/**
 * The dashboard's navigation bar: which item is highlighted for the current
 * path, and the initials on the avatar.
 */
module DashboardNav {
  import opened Wrappers
  import opened Text

  /** The configured items' targets, in display order. */
  const NavHrefs: seq<string> := ["/dashboard", "/policies"]

  /** An item is highlighted on its own page and on every page below it. */
  predicate IsActive(pathname: string, href: string) {
    pathname == href || StartsWith(pathname, href + "/")
  }

  /** `pathname` lies on or below `href` exactly when it extends `href` at a segment boundary. */
  lemma IsActiveIff(pathname: string, href: string)
    ensures IsActive(pathname, href) <==>
      StartsWith(pathname, href) && (|pathname| == |href| || pathname[|href|] == '/')
  {
    if StartsWith(pathname, href) && |pathname| > |href| && pathname[|href|] == '/' {
      assert pathname[..|href| + 1] == pathname[..|href|] + [pathname[|href|]];
    }
    if StartsWith(pathname, href + "/") {
      assert pathname[..|href|] == (href + "/")[..|href|];
      assert pathname[|href|] == (href + "/")[|href|];
    }
  }

  /** The two items' own paths and the paths below them never overlap. */
  lemma {:induction false} TwoActiveItemsNest(pathname: string, a: string, b: string)
    requires IsActive(pathname, a) && IsActive(pathname, b) && |a| <= |b|
    ensures StartsWith(b, a) && (|a| == |b| || b[|a|] == '/')
  {
    IsActiveIff(pathname, a);
    IsActiveIff(pathname, b);
    assert b[..|a|] == pathname[..|a|] by {
      assert b == pathname[..|b|];
    }
    if |a| < |b| {
      assert b[|a|] == pathname[|a|];
    }
  }

  /** No path highlights both configured items. */
  lemma NoPathActivatesBoth(pathname: string)
    ensures !(IsActive(pathname, NavHrefs[0]) && IsActive(pathname, NavHrefs[1]))
  {
    var a, b := NavHrefs[0], NavHrefs[1];
    if IsActive(pathname, a) && IsActive(pathname, b) {
      TwoActiveItemsNest(pathname, b, a);
      assert false;
    }
  }

  /** A page below the item is highlighted, a longer name that merely starts the same is not. */
  lemma PoliciesExamples()
    ensures IsActive("/policies/abc", "/policies")
    ensures !IsActive("/policiesX", "/policies")
    ensures IsActive("/policies", "/policies")
  {
    assert "/policies/abc"[..|"/policies/"|] == "/policies/";
    IsActiveIff("/policiesX", "/policies");
    assert "/policiesX"[9] == 'X';
  }

  /** The avatar's initials: `U` when signed out, else the upper-cased first letters of the two names. */
  function AvatarInitials(user: Option<(string, string)>): (r: string)
    ensures user.None? ==> r == "U"
    ensures user.Some? && |user.value.0| > 0 && |user.value.1| > 0 ==>
      r == [UpperChar(user.value.0[0]), UpperChar(user.value.1[0])]
  {
    match user
    case None => "U"
    case Some((first, last)) => Initials(first, last)
  }

  /** An empty first name prints as `undefined` before upper-casing. */
  lemma EmptyFirstNameInitials(last: string)
    requires |last| > 0
    ensures AvatarInitials(Some(("", last))) == "UNDEFINED" + [UpperChar(last[0])]
  {
    assert FirstCharText("") + FirstCharText(last) == "undefined" + [last[0]];
    assert Upper("undefined") == "UNDEFINED";
  }
}
