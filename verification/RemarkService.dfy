/** The template each link of one subscription request is rendered from. */
module RemarkService {
  import opened RemarkBraces
  import opened RemarkFilter
  import opened RemarkFilterLaws
  import opened RemarkText

  const USAGE_INFO_TOKENS := {
    "TRAFFIC_USED", "TRAFFIC_LEFT", "TRAFFIC_TOTAL", "TRAFFIC_USED_BYTES", "TRAFFIC_LEFT_BYTES", "TRAFFIC_TOTAL_BYTES",
    "UP", "DOWN", "DAYS_LEFT", "EXPIRE_DATE", "EXPIRE_UNIX", "STATUS", "STATUS_EMOJI", "USAGE_PERCENTAGE", "TIME_LEFT",
    "JALALI_EXPIRE_DATE"}

  const FIRST_LINK_ONLY_BODY_TOKENS := USAGE_INFO_TOKENS + {"EMAIL", "USERNAME"}

  /** The tokens a link after a client's first one goes without. */
  function RepeatRemoval(showIdentityOnAllLinks: bool): set<string> {
    if showIdentityOnAllLinks then USAGE_INFO_TOKENS else FIRST_LINK_ONLY_BODY_TOKENS
  }

  function Effective(translated: string, remove: set<string>, shown: set<string>, email: string): string {
    if email in shown then FilterTemplate(translated, remove) else translated
  }

  /** What a repeated link may show: nothing of the client's usage, and its identity only where that is asked for. */
  predicate OnEveryLink(showIdentityOnAllLinks: bool, x: string) {
    && x !in {"TRAFFIC_USED", "TRAFFIC_LEFT", "TRAFFIC_TOTAL", "TRAFFIC_USED_BYTES", "TRAFFIC_LEFT_BYTES",
              "TRAFFIC_TOTAL_BYTES", "UP", "DOWN"}
    && x !in {"DAYS_LEFT", "TIME_LEFT", "EXPIRE_DATE", "EXPIRE_UNIX", "JALALI_EXPIRE_DATE", "STATUS", "STATUS_EMOJI",
              "USAGE_PERCENTAGE"}
    && (x in {"EMAIL", "USERNAME"} ==> showIdentityOnAllLinks)
  }

  lemma RemovedExactly(showIdentityOnAllLinks: bool, x: string)
    ensures x in RepeatRemoval(showIdentityOnAllLinks) <==> !OnEveryLink(showIdentityOnAllLinks, x)
  {}

  lemma {:induction false} WithoutMembers(names: seq<string>, remove: set<string>, x: string)
    ensures x in Without(names, remove) <==> x in names && x !in remove
  {
    if names != [] { WithoutMembers(names[1..], remove, x); }
  }

  /** The tokens of a repeated link's template. */
  lemma LaterTokens(translated: string, showIdentityOnAllLinks: bool)
    ensures forall x :: x in TokenNames(FilterTemplate(translated, RepeatRemoval(showIdentityOnAllLinks))) <==>
      x in TokenNames(translated) && OnEveryLink(showIdentityOnAllLinks, x)
  {
    var remove := RepeatRemoval(showIdentityOnAllLinks);
    FilterKeepsTheRest(translated, remove);
    forall x
      ensures x in Without(TokenNames(translated), remove) <==>
        x in TokenNames(translated) && OnEveryLink(showIdentityOnAllLinks, x)
    {
      WithoutMembers(TokenNames(translated), remove, x);
      RemovedExactly(showIdentityOnAllLinks, x);
    }
  }

  class SubService {
    const ui: map<string, string>
    const remarkTemplate: string
    const showIdentityOnAllLinks: bool
    var usageShown: set<string>

    constructor (ui: map<string, string>, remarkTemplate: string, showIdentityOnAllLinks: bool)
      ensures usageShown == {}
      ensures this.ui == ui && this.remarkTemplate == remarkTemplate
      ensures this.showIdentityOnAllLinks == showIdentityOnAllLinks
    {
      this.ui, this.remarkTemplate, this.showIdentityOnAllLinks := ui, remarkTemplate, showIdentityOnAllLinks;
      usageShown := {};
    }

    method EffectiveTemplate(email: string) returns (template: string)
      modifies this
      ensures template == Effective(Translate(ui, remarkTemplate, false), RepeatRemoval(showIdentityOnAllLinks),
                                    old(usageShown), email)
      ensures usageShown == old(usageShown) + {email}
      ensures email !in old(usageShown) ==> template == Translate(ui, remarkTemplate, false)
      ensures email in old(usageShown) ==> forall x :: x in TokenNames(template) <==>
        x in TokenNames(Translate(ui, remarkTemplate, false)) && OnEveryLink(showIdentityOnAllLinks, x)
    {
      var translated := TranslateUISingleBrackets(ui, remarkTemplate);
      if email in usageShown {
        var remove := FIRST_LINK_ONLY_BODY_TOKENS;
        if showIdentityOnAllLinks {
          remove := USAGE_INFO_TOKENS;
        }
        template := FilterRemarkTemplate(translated, remove);
        LaterTokens(translated, showIdentityOnAllLinks);
        return;
      }
      usageShown := usageShown + {email};
      template := translated;
    }
  }

  // ---------- all links of one request ----------

  function Emails(emails: seq<string>): set<string> {
    set e | e in emails
  }

  /** The templates of the body links of one request, link by link. */
  function Templates(translated: string, remove: set<string>, emails: seq<string>): (ts: seq<string>)
    ensures |ts| == |emails|
  {
    if emails == [] then [] else
      var n := |emails| - 1;
      Templates(translated, remove, emails[..n]) + [Effective(translated, remove, Emails(emails[..n]), emails[n])]
  }

  lemma {:induction false} TemplateAt(translated: string, remove: set<string>, emails: seq<string>, i: nat)
    requires i < |emails|
    ensures Templates(translated, remove, emails)[i] == Effective(translated, remove, Emails(emails[..i]), emails[i])
  {
    var n := |emails| - 1;
    if i < n {
      TemplateAt(translated, remove, emails[..n], i);
      assert emails[..n][..i] == emails[..i];
    }
  }

  /** Over any sequence of body links, each client's first link carries the template as it is, and every later one
      exactly the tokens outside the removed set, in order; so a removed token is on a client's first link only. */
  lemma FirstLinkOnly(translated: string, remove: set<string>, emails: seq<string>, i: nat)
    requires i < |emails|
    ensures TokenNames(Templates(translated, remove, emails)[i]) ==
      if emails[i] in emails[..i] then Without(TokenNames(translated), remove) else TokenNames(translated)
    ensures forall x :: x in remove && x in TokenNames(Templates(translated, remove, emails)[i]) ==>
      emails[i] !in emails[..i]
    ensures emails[i] !in emails[..i] ==> Templates(translated, remove, emails)[i] == translated
  {
    TemplateAt(translated, remove, emails, i);
    FilterKeepsTheRest(translated, remove);
    forall x ensures x in Without(TokenNames(translated), remove) ==> x !in remove {
      WithoutMembers(TokenNames(translated), remove, x);
    }
  }

  /** So of one request's links, a token is on one that is not its client's first exactly when the template has it, it
      tells no usage, and, should it tell who the client is, identity is wanted on all links. */
  lemma RepeatedLinkShows(translated: string, showIdentityOnAllLinks: bool, emails: seq<string>, i: nat, x: string)
    requires i < |emails| && emails[i] in emails[..i]
    ensures x in TokenNames(Templates(translated, RepeatRemoval(showIdentityOnAllLinks), emails)[i]) <==>
      x in TokenNames(translated) && OnEveryLink(showIdentityOnAllLinks, x)
  {
    TemplateAt(translated, RepeatRemoval(showIdentityOnAllLinks), emails, i);
    LaterTokens(translated, showIdentityOnAllLinks);
  }
}
