/** The daemon's request-boundary policy on the bytes of a submitted command. */
module Ingress {

  predicate OpensSubstitution(s: string, i: nat)
    requires i < |s|
  {
    s[i] == '$' && i + 1 < |s| && (s[i + 1] == '(' || s[i + 1] == '{')
  }

  predicate IsControl(c: char) { c < ' ' || c as int == 0x7F }

  /** The daemon's request-boundary guard: true when the command may pass. */
  predicate SeparatorGuard(s: string) {
    forall i :: 0 <= i < |s| ==>
      && !IsControl(s[i])
      && s[i] != ';' && s[i] != '|' && s[i] != '&' && s[i] != '`' && s[i] != '>' && s[i] != '<'
      && !OpensSubstitution(s, i)
  }

  /** The guard as the daemon runs it, one pass over the bytes. */
  method CheckSeparators(s: string) returns (ok: bool)
    ensures ok <==> SeparatorGuard(s)
  {
    var i := 0;
    while i < |s|
      invariant 0 <= i <= |s|
      invariant forall j :: 0 <= j < i ==>
        && !IsControl(s[j])
        && s[j] != ';' && s[j] != '|' && s[j] != '&' && s[j] != '`' && s[j] != '>' && s[j] != '<'
        && !OpensSubstitution(s, j)
    {
      var c := s[i];
      if IsControl(c) { return false; }
      if c == ';' || c == '|' || c == '&' || c == '`' || c == '>' || c == '<' { return false; }
      if c == '$' && i + 1 < |s| && (s[i + 1] == '(' || s[i + 1] == '{') {
        assert OpensSubstitution(s, i);
        return false;
      }
      i := i + 1;
    }
    ok := true;
  }

  /** Guards compose: text that ends in a quote or a plain byte cannot open a substitution with
      what follows. */
  lemma GuardOfSum(a: string, b: string)
    requires a == "" || a[|a| - 1] != '$'
    ensures SeparatorGuard(a + b) <==> SeparatorGuard(a) && SeparatorGuard(b)
  {
    var s := a + b;
    assert forall i :: 0 <= i < |a| ==> s[i] == a[i];
    assert forall i :: 0 <= i < |b| ==> s[|a| + i] == b[i];
    assert forall i :: 0 <= i < |a| ==> (OpensSubstitution(s, i) <==> OpensSubstitution(a, i));
    assert forall i :: 0 <= i < |b| ==> (OpensSubstitution(s, |a| + i) <==> OpensSubstitution(b, i));
    if SeparatorGuard(a) && SeparatorGuard(b) {
      forall i | 0 <= i < |s| ensures
        && !IsControl(s[i]) && s[i] != ';' && s[i] != '|' && s[i] != '&' && s[i] != '`' && s[i] != '>' && s[i] != '<'
        && !OpensSubstitution(s, i)
      {
        if i >= |a| { assert s[|a| + (i - |a|)] == b[i - |a|]; assert OpensSubstitution(s, |a| + (i - |a|)) <==> OpensSubstitution(b, i - |a|); }
      }
    }
  }

  lemma EmptyPasses()
    ensures SeparatorGuard("")
  {
  }

  lemma SpacePasses()
    ensures SeparatorGuard(" ")
  {
  }
}
