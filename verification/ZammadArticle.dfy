/** The JSON a typed write becomes: a fixed template with the id and the body spliced in verbatim. */
module ZammadArticle {
  import opened Prelude
  import opened JsonText
  import opened ZammadCommand

  const FIXED_TEXT := "\"type\":\"note\"" + ("," + ("\"internal\":true" + ("," + "\"content_type\":\"text/plain\"}")))

  function ArticleJson(q: Request): string {
    "{\"ticket_id\":" + q.id + ",\"body\":\"" + q.body + "\"," + FIXED_TEXT
  }

  const FIXED: seq<Member> := [Member("type", Text("note")), Member("internal", True), Member("content_type", Text("text/plain"))]

  function Article(q: Request): seq<Member> {
    [Member("ticket_id", Number(q.id)), Member("body", Text(q.body))] + FIXED
  }

  lemma OneMember(m: Member)
    ensures ObjectText([m]) == MemberText(m) + "}"
  {
  }

  lemma FirstMember(m: Member, rest: seq<Member>)
    requires rest != []
    ensures ObjectText([m] + rest) == MemberText(m) + ("," + ObjectText(rest))
  {
    assert ([m] + rest)[1..] == rest;
  }

  lemma FixedText()
    ensures ObjectText(FIXED) == FIXED_TEXT
  {
    hide ObjectText, MemberText;
    var a, b, c := Member("type", Text("note")), Member("internal", True), Member("content_type", Text("text/plain"));
    OneMember(c);
    FirstMember(b, [c]);
    FirstMember(a, [b] + [c]);
    assert FIXED == [a] + ([b] + [c]);
    TypeText();
    InternalText();
    ContentTypeText();
  }

  lemma TypeText()
    ensures MemberText(Member("type", Text("note"))) == "\"type\":\"note\""
  {
  }

  lemma InternalText()
    ensures MemberText(Member("internal", True)) == "\"internal\":true"
  {
  }

  lemma ContentTypeText()
    ensures MemberText(Member("content_type", Text("text/plain"))) + "}" == "\"content_type\":\"text/plain\"}"
  {
  }

  lemma SplicedParts(q: Request, tail: string)
    ensures "{\"ticket_id\":" + q.id + ",\"body\":\"" + q.body + "\"," + tail ==
      "{" + (MemberText(Member("ticket_id", Number(q.id))) + ("," + (MemberText(Member("body", Text(q.body))) + ("," + tail))))
  {
    var a, b := MemberText(Member("ticket_id", Number(q.id))), MemberText(Member("body", Text(q.body)));
    assert a == "\"ticket_id\":" + q.id;
    assert b == "\"body\":\"" + q.body + "\"";
    assert "{" + "\"ticket_id\":" == "{\"ticket_id\":";
    assert "," + "\"body\":\"" == ",\"body\":\"";
    assert "\"" + "," == "\",";
  }

  lemma TemplateIsTheObject(q: Request)
    ensures ArticleJson(q) == "{" + ObjectText(Article(q))
  {
    hide ObjectText;
    var id, body := Member("ticket_id", Number(q.id)), Member("body", Text(q.body));
    FixedText();
    SplicedParts(q, FIXED_TEXT);
    FirstMember(body, FIXED);
    FirstMember(id, [body] + FIXED);
    assert Article(q) == [id] + ([body] + FIXED);
  }

  lemma FixedIsPlain()
    ensures forall i :: 0 <= i < |FIXED| ==> Plain(FIXED[i])
  {
    var a, b, c := FIXED[0], FIXED[1], FIXED[2];
    assert NeedsNoEscape("type") && NeedsNoEscape("note");
    assert NeedsNoEscape("internal");
    assert NeedsNoEscape("content_type") && NeedsNoEscape("text/plain");
    assert Plain(a) && Plain(b) && Plain(c);
  }

  lemma LeadIsPlain(q: Request)
    requires Legal(q)
    ensures Plain(Member("ticket_id", Number(q.id))) && Plain(Member("body", Text(q.body)))
  {
    assert NeedsNoEscape("ticket_id") && NeedsNoEscape("body");
    assert NeedsNoEscape(q.body);
  }

  predicate Plain(m: Member) { NeedsNoEscape(m.key) && PlainAtom(m.value) }

  lemma ArticleIsPlain(q: Request)
    requires Legal(q)
    ensures forall i :: 0 <= i < |Article(q)| ==> NeedsNoEscape(Article(q)[i].key) && PlainAtom(Article(q)[i].value)
  {
    hide NeedsNoEscape, PlainAtom, Legal;
    FixedIsPlain();
    LeadIsPlain(q);
    var ms := Article(q);
    forall i | 0 <= i < |ms| ensures Plain(ms[i]) {
      assert i >= 2 ==> ms[i] == FIXED[i - 2];
    }
  }

  /** Whatever the approved body says, the posted object has these five members and no other, and its
      body reads back to the approved one. */
  lemma ArticleReadsBack(q: Request)
    requires Legal(q)
    ensures ReadObject(ArticleJson(q)) == Some(Article(q))
  {
    hide ObjectText, Article, ArticleJson, Legal, NeedsNoEscape, PlainAtom, ReadMembers;
    var ms := Article(q);
    TemplateIsTheObject(q);
    ArticleIsPlain(q);
    ArticleIsNotEmpty(q);
    MembersRead(ms);
    assert ("{" + ObjectText(ms))[1..] == ObjectText(ms);
  }

  lemma ArticleIsNotEmpty(q: Request)
    ensures Article(q) != []
  {
  }
}
