/** The admin panel for the web sources the assistant may search: the
    domain typed into the form is cleaned and checked before it is sent,
    and a source's switch is flipped at once and flipped back if the server
    refuses. Requests are parameters: whether the server accepted and the
    error text it sent back. */
module WebSources {
  import opened JsText

  /** `^https?:\/\/` under the `i` flag: the length of the prefix to drop,
      or 0 if there is none. */
  function SchemeLength(s: string): (n: nat)
    ensures n == 0 || n == 7 || n == 8
    ensures n <= |s|
    ensures n > 0 <==> (|s| >= 7 && Lower(s[..7]) == "http://") || (|s| >= 8 && Lower(s[..8]) == "https://")
    ensures n == 7 ==> Lower(s[..7]) == "http://"
    ensures n == 8 ==> Lower(s[..8]) == "https://"
  {
    if |s| >= 7 && Lower(s[..7]) == "http://" then 7
    else if |s| >= 8 && Lower(s[..8]) == "https://" then 8
    else 0
  }

  predicate NoLineTerminator(s: string)
  {
    forall i :: 0 <= i < |s| ==> !IsLineTerminator(s[i])
  }

  /** Where `/\/.*$/` first matches: a slash with no line terminator after
      it (`.` stops at one, and `$` is the end of the text). */
  function CutAt(s: string, from: nat): (i: nat)
    requires from <= |s|
    ensures from <= i <= |s|
    decreases |s| - from
  {
    if from == |s| then |s|
    else if s[from] == '/' && NoLineTerminator(s[from..]) then from
    else CutAt(s, from + 1)
  }

  /** `form.domain.trim().replace(/^https?:\/\//i, '').replace(/\/.*$/, '')`. */
  function CleanDomain(domain: string): (r: string)
    ensures var t := Trim(domain); r <= t[SchemeLength(t)..]
  {
    var t := Trim(domain);
    var u := t[SchemeLength(t)..];
    u[..CutAt(u, 0)]
  }

  lemma {:induction false} CutAtFirstSlash(s: string, from: nat)
    requires from <= |s| && NoLineTerminator(s)
    ensures var i := CutAt(s, from);
      (forall j :: from <= j < i ==> s[j] != '/') && (i < |s| ==> s[i] == '/')
    decreases |s| - from
  {
    if from < |s| {
      assert NoLineTerminator(s[from..]) by {
        assert forall j :: 0 <= j < |s[from..]| ==> s[from..][j] == s[from + j];
      }
      if s[from] != '/' {
        CutAtFirstSlash(s, from + 1);
      }
    }
  }

  /** On a single line, the cleaned domain is the trimmed text without its
      scheme, up to its first slash. */
  lemma CleanDomainSpec(domain: string)
    requires NoLineTerminator(domain)
    ensures var t := Trim(domain);
      var u := t[SchemeLength(t)..];
      var c := CleanDomain(domain);
      c <= u && '/' !in c && (|c| < |u| ==> u[|c|] == '/')
  {
    var t := Trim(domain);
    assert NoLineTerminator(t) by {
      TrimSpec(domain);
      var a := LeadingSpaces(domain);
      NoLineTerminatorPiece(domain, a, a + |t|);
    }
    NoLineTerminatorPiece(t, SchemeLength(t), |t|);
    var u := t[SchemeLength(t)..];
    assert u == t[SchemeLength(t)..|t|];
    CutAtFirstSlash(u, 0);
  }

  lemma NoLineTerminatorPiece(s: string, i: nat, j: nat)
    requires NoLineTerminator(s) && i <= j <= |s|
    ensures NoLineTerminator(s[i..j])
  {
    assert forall k :: 0 <= k < j - i ==> s[i..j][k] == s[i + k];
  }

  /** The scheme prefix is dropped in any letter case. */
  lemma SchemeDropped(host: string)
    requires NoLineTerminator(host) && '/' !in host && host != [] && !IsSpace(host[|host| - 1]) && !IsSpace(host[0])
    ensures CleanDomain("HTTPS://" + host) == host
  {
    var s := "HTTPS://" + host;
    TrimNoEdgeSpace(s);
    assert s[..8] == "HTTPS://";
    assert Lower(s[..7]) != "http://" by {
      assert Lower(s[..7])[4] == 's';
    }
    assert s[8..] == host;
    CutAtFirstSlash(host, 0);
  }

  /** The class `[a-z0-9.-]` under the `i` flag. */
  predicate IsHostChar(c: char)
  {
    IsAsciiAlnum(c) || c == '.' || c == '-'
  }

  /** `/^[a-z0-9.-]+\.[a-z]{2,}$/i`, as the regular expression reads: some
      non-empty run of host characters, a dot, and two or more letters. */
  ghost predicate DomainPattern(s: string)
  {
    exists j :: 0 < j && j + 3 <= |s| && s[j] == '.'
      && (forall i :: 0 <= i < j ==> IsHostChar(s[i]))
      && (forall i :: j < i < |s| ==> IsAsciiLetter(s[i]))
  }

  /** Index of the last dot, if any. */
  function LastDot(s: string): (r: Option<nat>)
    ensures r.Some? ==> r.value < |s| && s[r.value] == '.' && forall i :: r.value < i < |s| ==> s[i] != '.'
    ensures r.None? ==> forall i :: 0 <= i < |s| ==> s[i] != '.'
  {
    if |s| == 0 then None
    else if s[|s| - 1] == '.' then Some(|s| - 1)
    else LastDot(s[..|s| - 1])
  }

  /** The same test, made by splitting at the last dot. */
  predicate IsDomain(s: string)
    ensures IsDomain(s) ==> 4 <= |s| && IsHostChar(s[0]) && IsAsciiLetter(s[|s| - 1]) && '.' in s
  {
    match LastDot(s)
    case None => false
    case Some(j) =>
      && 0 < j && j + 3 <= |s|
      && (forall i :: 0 <= i < j ==> IsHostChar(s[i]))
      && (forall i :: j < i < |s| ==> IsAsciiLetter(s[i]))
  }

  /** Splitting at the last dot decides the regular expression: letters
      after the dot leave no later dot, so the last dot is the one the
      pattern needs. */
  lemma IsDomainMatchesPattern(s: string)
    ensures IsDomain(s) <==> DomainPattern(s)
  {
    if DomainPattern(s) {
      var j :| 0 < j && j + 3 <= |s| && s[j] == '.'
        && (forall i :: 0 <= i < j ==> IsHostChar(s[i]))
        && (forall i :: j < i < |s| ==> IsAsciiLetter(s[i]));
      assert LastDot(s) == Some(j) by {
        var r := LastDot(s);
        assert r.Some? by { assert s[j] == '.'; }
        assert !(r.value > j);
        assert !(r.value < j);
      }
    }
  }

  datatype Source = Source(id: int, labelText: string, domain: string, priority: int, enabled: bool)

  datatype Form = Form(labelText: string, domain: string, priority: int)

  /** The body of the POST request that adds a source. */
  datatype NewSource = NewSource(labelText: string, domain: string, priority: int)

  const MsgNoDomain: string := "Укажите домен без протокола"
  const MsgBadDomain: string := "Неверный формат домена"
  const MsgSaveFailed: string := "Не удалось сохранить"
  const MsgToggleFailed: string := "Не удалось сохранить переключатель"

  const EmptyForm: Form := Form("", "", 1)

  /** `prev.map((s) => (s.id === id ? { ...s, enabled } : s))`. */
  function SetEnabled(sources: seq<Source>, id: int, enabled: bool): (r: seq<Source>)
    ensures |r| == |sources|
    ensures forall k :: 0 <= k < |r| ==> r[k] == if sources[k].id == id then sources[k].(enabled := enabled) else sources[k]
  {
    seq(|sources|, k requires 0 <= k < |sources| => if sources[k].id == id then sources[k].(enabled := enabled) else sources[k])
  }

  class Panel {
    var sources: seq<Source>
    var webEnabled: bool
    var form: Form
    var error: Option<string>
    var loading: bool
    var savingToggle: bool

    constructor ()
      ensures sources == [] && webEnabled && form == EmptyForm && error == None && !loading && !savingToggle
    {
      sources := [];
      webEnabled := true;
      form := EmptyForm;
      error := None;
      loading := false;
      savingToggle := false;
    }

    /** `addSource`: a blank or malformed domain sets an error and sends
        nothing; otherwise the form goes out with the cleaned domain, and the
        form is reset when the server accepts it, or the server's error (or a
        default) is shown when it does not. */
    method AddSource(accepted: bool, serverError: string) returns (sent: Option<NewSource>)
      modifies this
      ensures sources == old(sources) && webEnabled == old(webEnabled) && savingToggle == old(savingToggle)
      ensures !loading || loading == old(loading)
      ensures var clean := CleanDomain(old(form).domain);
        && (clean == "" ==> sent == None && error == Some(MsgNoDomain) && form == old(form))
        && (clean != "" && !IsDomain(clean) ==> sent == None && error == Some(MsgBadDomain) && form == old(form))
        && (clean != "" && IsDomain(clean) ==> sent == Some(NewSource(old(form).labelText, clean, old(form).priority)))
        && (clean != "" && IsDomain(clean) && accepted ==> form == EmptyForm && error == None)
        && (clean != "" && IsDomain(clean) && !accepted ==>
              form == old(form) && error == Some(if serverError != "" then serverError else MsgSaveFailed))
    {
      error := None;
      var clean := CleanDomain(form.domain);
      if clean == "" {
        error := Some(MsgNoDomain);
        return None;
      }
      if !IsDomain(clean) {
        error := Some(MsgBadDomain);
        return None;
      }
      loading := true;
      sent := Some(NewSource(form.labelText, clean, form.priority));
      loading := false;
      if accepted {
        form := EmptyForm;
      } else {
        error := Some(if serverError != "" then serverError else MsgSaveFailed);
      }
    }

    /** `toggleSource`: the switch flips at once; if the server refuses, the
        entry is set to the opposite value and an error is shown. Entries
        with other ids never change. */
    method ToggleSource(id: int, enabled: bool, accepted: bool)
      modifies this
      ensures form == old(form) && webEnabled == old(webEnabled) && loading == old(loading) && savingToggle == old(savingToggle)
      ensures accepted ==> sources == SetEnabled(old(sources), id, enabled) && error == old(error)
      ensures !accepted ==> sources == SetEnabled(old(sources), id, !enabled) && error == Some(MsgToggleFailed)
    {
      sources := SetEnabled(sources, id, enabled);
      if !accepted {
        sources := SetEnabled(sources, id, !enabled);
        error := Some(MsgToggleFailed);
      }
    }

    /** `toggleWeb`: the web switch changes only once the server accepts. */
    method ToggleWeb(enabled: bool, accepted: bool)
      modifies this
      ensures sources == old(sources) && form == old(form) && loading == old(loading) && !savingToggle
      ensures accepted ==> webEnabled == enabled && error == old(error)
      ensures !accepted ==> webEnabled == old(webEnabled) && error == Some(MsgToggleFailed)
    {
      savingToggle := true;
      if accepted {
        webEnabled := enabled;
      } else {
        error := Some(MsgToggleFailed);
      }
      savingToggle := false;
    }
  }

  /** Setting the same flag twice is setting it once. */
  lemma SetEnabledTwice(sources: seq<Source>, id: int, a: bool, b: bool)
    ensures SetEnabled(SetEnabled(sources, id, a), id, b) == SetEnabled(sources, id, b)
  {
  }

  /** A refused toggle that really flipped the switch restores the list. */
  lemma RollbackRestores(sources: seq<Source>, id: int, enabled: bool)
    requires forall k :: 0 <= k < |sources| && sources[k].id == id ==> sources[k].enabled == !enabled
    ensures SetEnabled(SetEnabled(sources, id, enabled), id, !enabled) == sources
  {
    SetEnabledTwice(sources, id, enabled, !enabled);
  }

  /** A refused toggle to the value the entry already had leaves it flipped
      the other way: the rollback writes `!enabled`, not the old value. */
  lemma RollbackOfNoChange(s: Source)
    ensures var r := SetEnabled(SetEnabled([s], s.id, s.enabled), s.id, !s.enabled);
      r[0].enabled != s.enabled
  {
  }
}
