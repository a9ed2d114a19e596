/** The names of the 40 domains of the final migration manifest, in the order sort.Strings gives them
    (finalDomainSpecs in cmd/aicrm-v1-domain-import/final_reconcile.go). */
module DomainNames {
  import Text

  function FirstNames(i: nat): string {
    match i
    case 0 => "audience-activity-history"
    case 1 => "audience-history"
    case 2 => "automation-history"
    case 3 => "broadcast-job-history"
    case _ => "campaign"
  }

  function SecondNames(i: nat): string {
    match i
    case 0 => "campaign-definition-history"
    case 1 => "campaign-history"
    case 2 => "channel"
    case 3 => "contact-history"
    case _ => "contact-reference-history"
  }

  function ThirdNames(i: nat): string {
    match i
    case 0 => "coupon"
    case 1 => "customer-state-history"
    case 2 => "customer-timeline-history"
    case 3 => "cycle-observation-history"
    case _ => "deferred-identity-history"
  }

  function FourthNames(i: nat): string {
    match i
    case 0 => "external-identity-gap"
    case 1 => "finance"
    case 2 => "groupops"
    case 3 => "hxc-chat-job-history"
    case _ => "hxc-history"
  }

  function FifthNames(i: nat): string {
    match i
    case 0 => "hxc-member-usage-history"
    case 1 => "hxc-runtime-history"
    case 2 => "invalid-source-history"
    case 3 => "legacy-marketing-history"
    case _ => "marketing-config-history"
  }

  function SixthNames(i: nat): string {
    match i
    case 0 => "marketing-state-history"
    case 1 => "media"
    case 2 => "member-grid-history"
    case 3 => "message-history"
    case _ => "outbound-task-history"
  }

  function SeventhNames(i: nat): string {
    match i
    case 0 => "profile-catalog-history"
    case 1 => "radar"
    case 2 => "radar-click-history"
    case 3 => "service-period"
    case _ => "shop"
  }

  function EighthNames(i: nat): string {
    match i
    case 0 => "static"
    case 1 => "static-tail-history"
    case 2 => "survey"
    case 3 => "survey-unresolved-history"
    case _ => "wecom-contact-history"
  }

  function NameOf(d: nat): string {
    if d < 5 then FirstNames(d)
    else if d < 10 then SecondNames(d - 5)
    else if d < 15 then ThirdNames(d - 10)
    else if d < 20 then FourthNames(d - 15)
    else if d < 25 then FifthNames(d - 20)
    else if d < 30 then SixthNames(d - 25)
    else if d < 35 then SeventhNames(d - 30)
    else EighthNames(d - 35)
  }

  // ----- The names are strictly ascending

  lemma FirstAscend(i: nat)
    requires i < 4
    ensures Text.Less(FirstNames(i), FirstNames(i + 1))
  {
    hide Text.Less;
    Text.LessAt("audience-activity-history", "audience-history", 9);
    Text.LessAt("audience-history", "automation-history", 2);
    Text.LessAt("automation-history", "broadcast-job-history", 0);
    Text.LessAt("broadcast-job-history", "campaign", 0);
  }

  lemma SecondAscend(i: nat)
    requires i < 4
    ensures Text.Less(SecondNames(i), SecondNames(i + 1))
  {
    hide Text.Less;
    Text.LessAt("campaign-definition-history", "campaign-history", 9);
    Text.LessAt("campaign-history", "channel", 1);
    Text.LessAt("channel", "contact-history", 1);
    Text.LessAt("contact-history", "contact-reference-history", 8);
  }

  lemma ThirdAscend(i: nat)
    requires i < 4
    ensures Text.Less(ThirdNames(i), ThirdNames(i + 1))
  {
    hide Text.Less;
    Text.LessAt("coupon", "customer-state-history", 1);
    Text.LessAt("customer-state-history", "customer-timeline-history", 9);
    Text.LessAt("customer-timeline-history", "cycle-observation-history", 1);
    Text.LessAt("cycle-observation-history", "deferred-identity-history", 0);
  }

  lemma FourthAscend(i: nat)
    requires i < 4
    ensures Text.Less(FourthNames(i), FourthNames(i + 1))
  {
    hide Text.Less;
    Text.LessAt("external-identity-gap", "finance", 0);
    Text.LessAt("finance", "groupops", 0);
    Text.LessAt("groupops", "hxc-chat-job-history", 0);
    Text.LessAt("hxc-chat-job-history", "hxc-history", 4);
  }

  lemma FifthAscend(i: nat)
    requires i < 4
    ensures Text.Less(FifthNames(i), FifthNames(i + 1))
  {
    hide Text.Less;
    Text.LessAt("hxc-member-usage-history", "hxc-runtime-history", 4);
    Text.LessAt("hxc-runtime-history", "invalid-source-history", 0);
    Text.LessAt("invalid-source-history", "legacy-marketing-history", 0);
    Text.LessAt("legacy-marketing-history", "marketing-config-history", 0);
  }

  lemma SixthAscend(i: nat)
    requires i < 4
    ensures Text.Less(SixthNames(i), SixthNames(i + 1))
  {
    hide Text.Less;
    Text.LessAt("marketing-state-history", "media", 1);
    Text.LessAt("media", "member-grid-history", 2);
    Text.LessAt("member-grid-history", "message-history", 2);
    Text.LessAt("message-history", "outbound-task-history", 0);
  }

  lemma SeventhAscend(i: nat)
    requires i < 4
    ensures Text.Less(SeventhNames(i), SeventhNames(i + 1))
  {
    hide Text.Less;
    Text.LessAt("profile-catalog-history", "radar", 0);
    Text.PrefixLess("radar", "radar-click-history");
    Text.LessAt("radar-click-history", "service-period", 0);
    Text.LessAt("service-period", "shop", 1);
  }

  lemma EighthAscend(i: nat)
    requires i < 4
    ensures Text.Less(EighthNames(i), EighthNames(i + 1))
  {
    hide Text.Less;
    Text.PrefixLess("static", "static-tail-history");
    Text.LessAt("static-tail-history", "survey", 1);
    Text.PrefixLess("survey", "survey-unresolved-history");
    Text.LessAt("survey-unresolved-history", "wecom-contact-history", 0);
  }

  lemma FirstBeforeSecond()
    ensures Text.Less(FirstNames(4), SecondNames(0))
  {
    hide Text.Less;
    Text.PrefixLess("campaign", "campaign-definition-history");
  }

  lemma SecondBeforeThird()
    ensures Text.Less(SecondNames(4), ThirdNames(0))
  {
    hide Text.Less;
    Text.LessAt("contact-reference-history", "coupon", 2);
  }

  lemma ThirdBeforeFourth()
    ensures Text.Less(ThirdNames(4), FourthNames(0))
  {
    hide Text.Less;
    Text.LessAt("deferred-identity-history", "external-identity-gap", 0);
  }

  lemma FourthBeforeFifth()
    ensures Text.Less(FourthNames(4), FifthNames(0))
  {
    hide Text.Less;
    Text.LessAt("hxc-history", "hxc-member-usage-history", 4);
  }

  lemma FifthBeforeSixth()
    ensures Text.Less(FifthNames(4), SixthNames(0))
  {
    hide Text.Less;
    Text.LessAt("marketing-config-history", "marketing-state-history", 10);
  }

  lemma SixthBeforeSeventh()
    ensures Text.Less(SixthNames(4), SeventhNames(0))
  {
    hide Text.Less;
    Text.LessAt("outbound-task-history", "profile-catalog-history", 0);
  }

  lemma SeventhBeforeEighth()
    ensures Text.Less(SeventhNames(4), EighthNames(0))
  {
    hide Text.Less;
    Text.LessAt("shop", "static", 1);
  }

  lemma Adjacent(d: nat)
    requires d < 39
    ensures Text.Less(NameOf(d), NameOf(d + 1))
  {
    hide Text.Less, FirstNames, SecondNames, ThirdNames, FourthNames, FifthNames, SixthNames, SeventhNames, EighthNames;
    if d < 4 {
      FirstAscend(d - 0);
    } else if d == 4 {
      FirstBeforeSecond();
    } else if d < 9 {
      SecondAscend(d - 5);
    } else if d == 9 {
      SecondBeforeThird();
    } else if d < 14 {
      ThirdAscend(d - 10);
    } else if d == 14 {
      ThirdBeforeFourth();
    } else if d < 19 {
      FourthAscend(d - 15);
    } else if d == 19 {
      FourthBeforeFifth();
    } else if d < 24 {
      FifthAscend(d - 20);
    } else if d == 24 {
      FifthBeforeSixth();
    } else if d < 29 {
      SixthAscend(d - 25);
    } else if d == 29 {
      SixthBeforeSeventh();
    } else if d < 34 {
      SeventhAscend(d - 30);
    } else if d == 34 {
      SeventhBeforeEighth();
    } else {
      EighthAscend(d - 35);
    }
  }

  /** The order of the names is the order of the positions. */
  lemma {:induction false} NamesAscend(a: nat, b: nat)
    requires a < b < 40
    ensures Text.Less(NameOf(a), NameOf(b))
  {
    hide Text.Less, NameOf;
    Adjacent(b - 1);
    if a < b - 1 {
      NamesAscend(a, b - 1);
      Text.LessTransitive(NameOf(a), NameOf(b - 1), NameOf(b));
    }
  }

  /** "domain", the middle of the shared version, is no domain's name. */
  lemma NoDomainNamedDomain(d: nat)
    requires d < 40
    ensures NameOf(d) != "domain"
  {
    hide Text.Less, NameOf;
    BesideDomain();
    if d < 14 { NamesAscend(d, 14); }
    if d > 15 { NamesAscend(15, d); }
    if d <= 14 {
      if d < 14 { Text.LessTransitive(NameOf(d), NameOf(14), "domain"); }
    } else {
      if d > 15 { Text.LessTransitive("domain", NameOf(15), NameOf(d)); }
    }
    NotBoth(NameOf(d), "domain");
  }

  lemma NotBoth(a: string, b: string)
    ensures Text.Less(a, b) || Text.Less(b, a) ==> a != b
  {
  }

  lemma BesideDomain()
    ensures Text.Less(NameOf(14), "domain") && Text.Less("domain", NameOf(15))
  {
    hide Text.Less;
    Text.LessAt("deferred-identity-history", "domain", 1);
    Text.LessAt("domain", "external-identity-gap", 0);
  }
}
