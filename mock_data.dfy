/**
 * The module-level arrays of mocks/data.ts that the services read and mutate
 * in place. Each array is a `seq` field; an operation that pushes, splices or
 * overwrites an entry reassigns its field, and its `modifies` clause names the
 * fields it may touch and no others.
 */
module MockData {
  import opened Records

  /** The three category lists of category.service.ts. */
  datatype CategoryList = ProjectCategories | ContactCategories | WorkStatuses

  class MockDb {
    var users: seq<User>
    var projects: seq<Project>
    var artworks: seq<Artwork>
    var contacts: seq<Contact>
    var media: seq<Media>
    var artworkCategories: seq<Category>
    var projectCategories: seq<Category>
    var contactCategories: seq<Category>
    var workStatuses: seq<Category>
    var rightsHolders: seq<ArtworkRightsHolder>
    var rightsMedia: seq<ArtworkRightsMedia>

    /** The stores start from fixtures; those the data file does not define start empty. */
    constructor (users: seq<User>, projects: seq<Project>, artworks: seq<Artwork>,
                 contacts: seq<Contact>, artworkCategories: seq<Category>,
                 projectCategories: seq<Category>, contactCategories: seq<Category>,
                 workStatuses: seq<Category>)
      ensures this.users == users && this.projects == projects && this.artworks == artworks
      ensures this.contacts == contacts && this.artworkCategories == artworkCategories
      ensures this.projectCategories == projectCategories
      ensures this.contactCategories == contactCategories && this.workStatuses == workStatuses
      ensures media == [] && rightsHolders == [] && rightsMedia == []
    {
      this.users := users;
      this.projects := projects;
      this.artworks := artworks;
      this.contacts := contacts;
      this.media := [];
      this.artworkCategories := artworkCategories;
      this.projectCategories := projectCategories;
      this.contactCategories := contactCategories;
      this.workStatuses := workStatuses;
      this.rightsHolders := [];
      this.rightsMedia := [];
    }

    /** The category list named by `list`. */
    function Categories(list: CategoryList): seq<Category>
      reads this
    {
      match list
      case ProjectCategories => projectCategories
      case ContactCategories => contactCategories
      case WorkStatuses => workStatuses
    }
  }
}
