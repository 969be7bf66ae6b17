/** The library items the browser lists, and the static collection the page is
    given. */
module Library {
  import opened Wrappers

  datatype ItemType = Document | Video | Image | Audio | LinkItem | Archive | Collection | Unknown

  /** One library entry; the optional fields are `None` where the item has none. */
  datatype Item = Item(
    id: string,
    itemType: ItemType,
    title: string,
    description: string,
    imageUrl: Option<string>,
    tags: Option<seq<string>>,
    dateAdded: Option<string>,
    author: Option<string>,
    metadata: Option<seq<string>>)

  /** The eight sample items, in display order (image addresses omitted). */
  const SampleItems: seq<Item> := [
    Item("1", Document, "Annual Report 2023", "Comprehensive overview of company performance in 2023.",
         None, Some(["finance", "report", "annual"]), Some("2024-01-15"), Some("Finance Team"),
         Some(["PDF", "3.5MB", "Internal"])),
    Item("2", Video, "Product Demo Video", "A short video showcasing the new product features.",
         None, Some(["product", "demo", "marketing"]), Some("2024-02-01"), Some("Marketing Dept."),
         Some(["MP4", "10:32min", "Public"])),
    Item("3", Image, "Team Offsite Photos", "Collection of photos from the recent team offsite event.",
         None, Some(["team", "event", "photos"]), Some("2024-03-10"), Some("HR Dept."),
         Some(["JPEG Collection", "High-Res"])),
    Item("4", Audio, "CEO Townhall Q1", "Recording of the first quarter townhall meeting with the CEO.",
         None, Some(["townhall", "ceo", "internal"]), Some("2024-03-20"), Some("Internal Comms"),
         Some(["MP3", "45:12min"])),
    Item("5", LinkItem, "Competitor Analysis Dashboard", "Link to the live competitor analysis dashboard.",
         None, Some(["analysis", "competitor", "strategy"]), Some("2024-04-01"), Some("Strategy Team"),
         Some(["External Link", "Real-time Data"])),
    Item("6", Archive, "Project Alpha Archive", "Archived files and documents for Project Alpha.",
         None, Some(["archive", "project alpha", "legacy"]), Some("2023-12-01"), Some("Project Team"),
         Some(["ZIP", "250MB"])),
    Item("7", Collection, "Onboarding Materials", "A collection of resources for new hires.",
         None, Some(["onboarding", "hr", "new hires"]), Some("2024-01-05"), Some("HR Dept."),
         Some(["Multiple file types"])),
    Item("8", Document, "Marketing Campaign Plan Q3", "Detailed plan for Q3 marketing campaigns.",
         None, Some(["marketing", "plan", "q3"]), Some("2024-05-10"), Some("Marketing Dept."),
         None)
  ]
}
