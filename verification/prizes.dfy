/** The static prize catalogue of the application and the icon table the
    slot machine uses to draw a reel. */
module PrizeCatalog {
  import opened Domain

  /** The five prizes, in the order the draw's indices refer to. */
  const Prizes: seq<Prize> := [
    Prize(1, "GRAND PRIZE: 2026 SUITE NIGHT",
      "Experience the ultimate VIP treatment with a private suite for a 2026 Rays game, including food and beverages for up to 12 guests.",
      "#F5D130", "#092C5C"),
    Prize(2, "CITY CONNECT JERSEY",
      "Official Tampa Bay Rays City Connect jersey featuring the unique local-inspired design. Available in your preferred size.",
      "#092C5C", "#FFFFFF"),
    Prize(3, "2026 TICKETS",
      "Four premium tickets to any 2026 regular season Rays home game of your choice, subject to availability.",
      "#8FBCE6", "#092C5C"),
    Prize(4, "MERCH DISCOUNTS",
      "50% off your next purchase at the Rays Team Store, valid on regular-priced merchandise. Maximum discount $100.",
      "#FFFFFF", "#092C5C"),
    Prize(5, "RAYS SWAG BAG",
      "Official Rays merchandise bundle including a hat, t-shirt, keychain, and other exclusive team items.",
      "#4A90E2", "#FFFFFF")
  ]

  /** Presentation data of one reel face: the icon's name and colours. */
  datatype ReelIcon = ReelIcon(icon: string, color: string, bgColor: string)

  /** The slot machine's icon table, keyed by prize id. */
  const PrizeIcons: map<nat, ReelIcon> := map[
    1 := ReelIcon("Trophy", "#F5D130", "#092C5C"),
    2 := ReelIcon("Shirt", "#FFFFFF", "#092C5C"),
    3 := ReelIcon("Ticket", "#092C5C", "#8FBCE6"),
    4 := ReelIcon("Percent", "#092C5C", "#FFFFFF"),
    5 := ReelIcon("Gift", "#FFFFFF", "#4A90E2")
  ]

  /** The catalogue has five prizes and prize `i` carries id `i + 1`, so
      ids are distinct and positive. */
  lemma CatalogueIds()
    ensures |Prizes| == 5
    ensures forall i :: 0 <= i < |Prizes| ==> Prizes[i].id == i + 1
    ensures forall i, j :: 0 <= i < j < |Prizes| ==> Prizes[i].id != Prizes[j].id
  {
  }

  /** The icon id a reel showing prize index `shown` looks up:
      `prizes[shown]?.id || 1`. */
  function ReelIconId(shown: nat): (id: nat)
    ensures id in PrizeIcons
    ensures shown < |Prizes| ==> id == shown + 1
    ensures shown >= |Prizes| ==> id == 1
  {
    var id := if shown < |Prizes| then Prizes[shown].id else 0;
    if id == 0 then 1 else id
  }
}
