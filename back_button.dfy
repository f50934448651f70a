/** The back button's navigation stack: the screens visited in this browser
    session, kept under the session-storage key `navStack`, so that "back"
    returns to the previous screen rather than the previous history state. */
module BackButton {
  import opened JsText

  /** What `JSON.parse` makes of the stored `navStack` value. */
  datatype Entry =
    | Missing               // no value, or the empty string
    | Unparsable            // not JSON: parsing throws
    | NotArray              // JSON, but not an array
    | Stack(items: seq<string>)

  /** The stack a readable entry holds: `[]` unless it is an array. */
  function Read(e: Entry): seq<string>
    requires !e.Unparsable?
  {
    if e.Stack? then e.items else []
  }

  const Limit: nat := 50

  /** `stack.slice(-50)`: the last 50 entries. */
  function LastFifty(s: seq<string>): (r: seq<string>)
    ensures |r| <= Limit
    ensures |s| <= Limit ==> r == s
    ensures |s| > Limit ==> r == s[|s| - Limit..]
  {
    if |s| <= Limit then s else s[|s| - Limit..]
  }

  /** The stack after visiting `pathname`: pushed unless it is already on
      top, then cut to the last 50. */
  function Visit(s: seq<string>, pathname: string): (r: seq<string>)
    ensures r != [] && r[|r| - 1] == pathname
    ensures |s| <= Limit ==> |r| <= Limit
    ensures |s| > 0 && s[|s| - 1] == pathname ==> r == s
    ensures !(|s| > 0 && s[|s| - 1] == pathname) ==>
      |r| == (if |s| + 1 <= Limit then |s| + 1 else Limit) && r[..|r| - 1] == s[|s| + 1 - |r|..]
  {
    if |s| > 0 && s[|s| - 1] == pathname then s else LastFifty(s + [pathname])
  }

  /** The rest of the stack after going back from `pathname`, and the
      screen popped as the previous one. */
  function Back(s: seq<string>, pathname: string): (r: (seq<string>, Option<string>))
    ensures |r.0| <= |s| && r.0 == s[..|r.0|] && |s| - 2 <= |r.0|
    ensures r.1.Some? ==> |r.0| < |s| && r.1.value == s[|r.0|]
    ensures r.1.None? <==> |s| == 0 || (|s| == 1 && s[0] == pathname)
  {
    var s1 := if |s| > 0 && s[|s| - 1] == pathname then s[..|s| - 1] else s;
    if |s1| == 0 then ([], None) else (s1[..|s1| - 1], Some(s1[|s1| - 1]))
  }

  /** `router.push(prev || fallback)`: no previous screen, or an empty one,
      leads to "/". */
  function Target(prev: Option<string>): string
  {
    if prev.Some? && prev.value != "" then prev.value else "/"
  }

  /** The component's `hideOnPaths` test, with a missing path read as "". */
  predicate Hidden(hideOnPaths: seq<string>, pathname: string)
  {
    pathname in hideOnPaths
  }

  /** The session storage the button reads and writes. `writable` is false
      when `setItem` throws. */
  class NavStore {
    var entry: Entry
    var writable: bool

    constructor (entry: Entry, writable: bool)
      ensures this.entry == entry && this.writable == writable
    {
      this.entry := entry;
      this.writable := writable;
    }

    /** `updateStack`: nothing happens without a window or a path, on an
        unreadable value, when the path is already on top, or when storage
        refuses the write (the error is swallowed). */
    method UpdateStack(pathname: string, hasWindow: bool)
      modifies this
      ensures writable == old(writable)
      ensures !hasWindow || pathname == "" || old(entry).Unparsable? || !writable ==> entry == old(entry)
      ensures hasWindow && pathname != "" && !old(entry).Unparsable? && writable ==>
        var s := Read(old(entry));
        entry == if |s| > 0 && s[|s| - 1] == pathname then old(entry) else Stack(Visit(s, pathname))
    {
      if !hasWindow || pathname == "" {
        return;
      }
      if entry.Unparsable? {
        return;
      }
      var stack := Read(entry);
      if |stack| == 0 || stack[|stack| - 1] != pathname {
        stack := stack + [pathname];
        if writable {
          entry := Stack(LastFifty(stack));
        }
      }
    }

    /** `goBack`: drop the current screen from the top, pop the previous one,
        store the rest and navigate to it. Without a window, on an
        unreadable value, or when storage refuses the write, it navigates to
        "/" and the stored stack stays as it was. */
    method GoBack(pathname: string, hasWindow: bool) returns (target: string)
      modifies this
      ensures writable == old(writable)
      ensures !hasWindow || old(entry).Unparsable? || !writable ==> target == "/" && entry == old(entry)
      ensures hasWindow && !old(entry).Unparsable? && writable ==>
        var (rest, prev) := Back(Read(old(entry)), pathname);
        entry == Stack(rest) && target == Target(prev)
    {
      if !hasWindow || entry.Unparsable? {
        return "/";
      }
      var stack := Read(entry);
      if |stack| > 0 && stack[|stack| - 1] == pathname {
        stack := stack[..|stack| - 1];
      }
      var prev: Option<string> := None;
      if |stack| > 0 {
        prev := Some(stack[|stack| - 1]);
        stack := stack[..|stack| - 1];
      }
      if !writable {
        return "/";
      }
      entry := Stack(stack);
      target := Target(prev);
    }

    /** The component: a hidden path renders nothing and leaves the stack
        alone; any other path is recorded. */
    method Render(hideOnPaths: seq<string>, pathname: string, hasWindow: bool) returns (shown: bool)
      modifies this
      ensures shown == !Hidden(hideOnPaths, pathname)
      ensures writable == old(writable)
      ensures !shown ==> entry == old(entry)
      ensures shown && hasWindow && pathname != "" && !old(entry).Unparsable? && writable ==>
        entry.Stack? && Read(entry) == Visit(Read(old(entry)), pathname)
    {
      if Hidden(hideOnPaths, pathname) {
        return false;
      }
      UpdateStack(pathname, hasWindow);
      shown := true;
    }
  }

  /** A visit keeps the screens before it in order, and drops the oldest
      ones only as far as the limit of 50 demands. */
  lemma VisitKeepsOrder(s: seq<string>, pathname: string)
    ensures var onTop := |s| > 0 && s[|s| - 1] == pathname;
      var d := if onTop || |s| + 1 <= Limit then 0 else |s| + 1 - Limit;
      d <= |s| && Visit(s, pathname) == s[d..] + (if onTop then [] else [pathname])
  {
    var t := Visit(s, pathname);
    if |s| > 0 && s[|s| - 1] == pathname {
      assert t == s[0..] + [];
    } else if |s + [pathname]| <= Limit {
      assert t == s[0..] + [pathname];
    } else {
      var d := |s| + 1 - Limit;
      assert t == s[d..] + [pathname];
    }
  }

  /** Visiting the same path twice records it once. */
  lemma VisitIdempotent(s: seq<string>, pathname: string)
    ensures Visit(Visit(s, pathname), pathname) == Visit(s, pathname)
  {
  }

  /** Going back right after visiting a new screen returns to the screen
      that was on top before it, and restores the stack below that screen. */
  lemma BackUndoesVisit(s: seq<string>, pathname: string)
    requires |s| < Limit && (|s| == 0 || s[|s| - 1] != pathname)
    ensures Back(Visit(s, pathname), pathname) ==
      if |s| == 0 then ([], None) else (s[..|s| - 1], Some(s[|s| - 1]))
  {
    var t := Visit(s, pathname);
    assert t == s + [pathname];
    assert t[..|t| - 1] == s;
  }

  /** Going back from a screen that is not on top pops the top screen
      itself. */
  lemma BackFromUnrecordedScreen(s: seq<string>, pathname: string)
    requires |s| > 0 && s[|s| - 1] != pathname
    ensures Back(s, pathname) == (s[..|s| - 1], Some(s[|s| - 1]))
  {
  }
}
