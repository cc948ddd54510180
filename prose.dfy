/** The literal prose of the prompts (ai-event-planner/prompts.py). Nothing is proved about
    its wording; the prompt builder only places it. It sits in a module of its own so that
    proofs about the layout of the prompts never have to look inside it. */
module PromptProse {
  import opened Text

  /** The plan written for the Picnic example, line by line: a newline starts it and ends it,
      so its first and last lines are empty. */
  const PicnicPlanLines: seq<string> := [
    "",
    "# Event Details",
    "- **Event Type:** Picnic",
    "- **Guest Count:** 10",
    "- **Budget:** $200",
    "- **Theme/Style:** Cottagecore",
    "- **Duration:** 3 hours",
    "- **Special Considerations:** Park setting; shade preferred; vegetarian options",
    "",
    "## Timeline of Preparation",
    "**Planning (2–3 weeks out)**",
    "- Define picnic area layout; verify park rules; secure shade via canopy or trees.",
    "- Menu draft with vegetarian focus; assign shopping & prep tasks.",
    "- Create a shared list for blankets, baskets, ice packs.",
    "",
    "**Final week/day**",
    "- Purchase perishables; pre‑chill drinks; confirm weather & backup gazebo.",
    "- Prep finger foods; pack utensils, wipes, trash bags.",
    "- Arrive 45–60 min early to stage blankets & décor.",
    "",
    "## Suggested Activities/Entertainment",
    "- Low‑key lawn games (ring toss, cards); nature sketching mini‑kit.",
    "- Curated acoustic playlist; optional poetry or story circle.",
    "- Photo scavenger list themed around flowers & textures.",
    "",
    "## Food and Drinks Suggestions",
    "- Sandwich minis (caprese, hummus‑veg); fruit skewers; cheese & crackers.",
    "- Lemonade, iced tea, sparkling water; one thermos of herbal tea.",
    "- Label allergens; pack gluten‑free crackers and dairy‑free dip.",
    "",
    "## Venue and Decoration Ideas",
    "- Layout: 2–3 blankets in a U‑shape; low crates as tables; basket centerpieces.",
    "- Décor: gingham cloths, wildflower jars, twine tags; soft neutrals & greens.",
    "- Shade: place under trees or pop‑up canopy; clip cloth for side shade.",
    "",
    "## Backup options",
    "- In case of wind: weighted clips for cloths, sealed containers.",
    "- In case of light rain: nearby gazebo; shift to sheltered picnic tables.",
    "- In case of heat: earlier start; misting spray; extra ice for drinks.",
    ""]

  /** The plan written for the Pool Party example, line by line, in the same form. */
  const PoolPartyPlanLines: seq<string> := [
    "",
    "# Event Details",
    "- **Event Type:** Pool Party",
    "- **Guest Count:** 50",
    "- **Budget:** $500",
    "- **Theme/Style:** 4th of July (casual & festive)",
    "- **Duration:** 4 hours",
    "- **Special Considerations:** Outdoors; safety supervision; DIY décor",
    "",
    "## Timeline of Preparation",
    "**Planning (3–4 weeks out)**",
    "- Safety: identify adult swim monitors; print rules; stock sunscreen & first‑aid.",
    "- Budget split: ~40% food, 20% drinks/ice, 15% décor, 15% activities, 10% misc.",
    "- Obtain music device + waterproof speaker; outline playlist segments.",
    "",
    "**Final week/day**",
    "- Grocery run for grillables & sides; fill coolers with ice.",
    "- Prep signage (restrooms, no‑running); set up shade & towel station.",
    "- Test lighting for evening; gather trash & recycling bins.",
    "",
    "## Suggested Activities/Entertainment",
    "- Cannonball contest; relay race with pool noodles; beach‑ball volleyball.",
    "- Photo backdrop with red/white/blue streamers; instant camera props.",
    "- Optional: simple fireworks‑free light show with glow sticks after sunset.",
    "",
    "## Food and Drinks Suggestions",
    "- Grill: hot dogs & veggie skewers; pasta salad; corn on the cob.",
    "- Red/white/blue fruit tray; popsicles in cooler; chips & salsa.",
    "- Drinks: water, lemonade, iced tea; coolers labeled; BYOB rules posted.",
    "",
    "## Venue and Decoration Ideas",
    "- Layout: shade zone (canopies), food buffet near outlet, games end opposite quiet lounge.",
    "- Décor: bunting, paper fans, reusable flags; color‑blocked tablecloths.",
    "- Lighting: string lights along fence; battery lanterns near seating.",
    "",
    "## Backup options",
    "- Bad weather: move to community room; keep cold foods in coolers; shift games to trivia/charades.",
    "- Equipment failure: backup Bluetooth speaker; spare extension cords.",
    "- Food shortage: frozen pizzas & extra chips as reserve.",
    ""]

  /** The model's turns of the two worked examples. */
  function PicnicPlan(): string {
    Join("\n", PicnicPlanLines)
  }

  function PoolPartyPlan(): string {
    Join("\n", PoolPartyPlanLines)
  }

  /** The opening of the system instruction, before its numbered sections. */
  const Intro := "You are a senior event producer and logistics planner. " +
                 "Deliver detailed, actionable event plans that strictly follow this section order:"

  /** The hint given in parentheses after each section title, in section order. */
  const SectionNotes: seq<string> := ["Event type, Guest Count, Budget, Theme/Style, Duration, Special Considerations",
                                      "Planning phase → Final week/day tasks",
                                      "age/audience‑appropriate",
                                      "meals, snacks, drinks, note dietary needs",
                                      "layout + theme‑aligned décor",
                                      "weather, vendor fallback, timing contingencies"]

  /** The lines after the sections: a heading and three constraints on every plan. */
  const ConstraintLines: seq<string> := [
    "Constraints:",
    "- Keep the plan coherent with the stated budget; include rough cost allocations where useful.",
    "- Use clear bullet points and subheadings; prefer concise, operative language.",
    "- Include at least 3 concrete vendor‑agnostic action items per section."]

}
