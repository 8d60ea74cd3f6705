/**
 * The records of types/index.ts. Ids, timestamps and dates are opaque strings;
 * prices and budgets are integers (an amount in cents). An optional TypeScript
 * property (`created_by?: string`) is an `Option`.
 *
 * An update takes a `Partial<T>`: a patch whose every field is optional. It is
 * merged with the object spread `{ ...old, ...patch }`, so a field present in
 * the patch wins and an absent one keeps its old value.
 */
module Records {
  import opened Wrappers

  type Id = string

  /** "admin" | "user" | "viewer" */
  datatype UserRole = Admin | Regular | Viewer

  /** "planning" | "active" | "completed" | "cancelled" */
  datatype ProjectStatus = Planning | Active | Completed | Cancelled {
    /** The string the status is stored and compared as. */
    function Name(): string {
      match this
      case Planning => "planning"
      case Active => "active"
      case Completed => "completed"
      case Cancelled => "cancelled"
    }
  }

  /** "available" | "on_display" | "stored" | "on_loan" */
  datatype ArtworkStatus = Available | OnDisplay | Stored | OnLoan

  datatype User = User(
    id: Id, created_at: string, created_by: Option<Id>,
    name: string, email: string, password: Option<string>,
    role: UserRole, department: string, active: bool)

  datatype Project = Project(
    id: Id, created_at: string, created_by: Id,
    title: string, description: string, start_date: string, end_date: string,
    category_id: Id, budget: int, status: ProjectStatus)

  datatype Artwork = Artwork(
    id: Id, created_at: string, created_by: Id,
    title: string, author: string, period: string, origin: string,
    exhibition_number: string, reference: string, image_url: string,
    project_id: Id, category_id: Id, status: ArtworkStatus)

  datatype Contact = Contact(
    id: Id, created_at: string, created_by: Id,
    name: string, contact_person: string, email: string, address: string,
    phone: string, notes: string, category_id: Id)

  /** A licensing channel (print, web, ...). */
  datatype Media = Media(id: Id, created_at: string, created_by: Id, name: string)

  /** BaseCategory: project, artwork and contact categories and work statuses. */
  datatype Category = Category(
    id: Id, created_at: string, created_by: Option<Id>,
    name: string, description: Option<string>)

  /** One licensing agreement between an artwork and a contact. */
  datatype ArtworkRightsHolder = ArtworkRightsHolder(
    id: Id, created_at: string, created_by: Option<Id>,
    artwork_id: Id, contact_id: Id, price: int)

  /** The association of a rights holder with one media it licenses. */
  datatype ArtworkRightsMedia = ArtworkRightsMedia(
    id: Id, created_at: string, created_by: Option<Id>,
    artwork_rights_holder_id: Id, media_id: Id)

  // The key every store looks records up by.
  function UserId(u: User): Id { u.id }
  function ProjectId(p: Project): Id { p.id }
  function ArtworkId(a: Artwork): Id { a.id }
  function ContactId(c: Contact): Id { c.id }
  function MediaId(m: Media): Id { m.id }
  function CategoryId(c: Category): Id { c.id }
  function HolderId(h: ArtworkRightsHolder): Id { h.id }
  function RowId(r: ArtworkRightsMedia): Id { r.id }

  // Partial<T> for each record that has an update operation.

  datatype UserPatch = UserPatch(
    id: Option<Id>, created_at: Option<string>, created_by: Option<Id>,
    name: Option<string>, email: Option<string>, password: Option<string>,
    role: Option<UserRole>, department: Option<string>, active: Option<bool>)

  datatype ProjectPatch = ProjectPatch(
    id: Option<Id>, created_at: Option<string>, created_by: Option<Id>,
    title: Option<string>, description: Option<string>,
    start_date: Option<string>, end_date: Option<string>,
    category_id: Option<Id>, budget: Option<int>, status: Option<ProjectStatus>)

  datatype ArtworkPatch = ArtworkPatch(
    id: Option<Id>, created_at: Option<string>, created_by: Option<Id>,
    title: Option<string>, author: Option<string>, period: Option<string>,
    origin: Option<string>, exhibition_number: Option<string>,
    reference: Option<string>, image_url: Option<string>,
    project_id: Option<Id>, category_id: Option<Id>, status: Option<ArtworkStatus>)

  datatype MediaPatch = MediaPatch(
    id: Option<Id>, created_at: Option<string>, created_by: Option<Id>, name: Option<string>)

  datatype CategoryPatch = CategoryPatch(
    id: Option<Id>, created_at: Option<string>, created_by: Option<Id>,
    name: Option<string>, description: Option<string>)

  datatype HolderPatch = HolderPatch(
    id: Option<Id>, created_at: Option<string>, created_by: Option<Id>,
    artwork_id: Option<Id>, contact_id: Option<Id>, price: Option<int>)

  /** A field that is absent from a patch keeps its old value; an optional field is overwritten only when present. */
  function Keep<T>(patch: Option<T>, current: Option<T>): Option<T> {
    if patch.Some? then patch else current
  }

  function MergeUser(u: User, p: UserPatch): User {
    User(p.id.GetOr(u.id), p.created_at.GetOr(u.created_at), Keep(p.created_by, u.created_by),
         p.name.GetOr(u.name), p.email.GetOr(u.email), Keep(p.password, u.password),
         p.role.GetOr(u.role), p.department.GetOr(u.department), p.active.GetOr(u.active))
  }

  function MergeProject(x: Project, p: ProjectPatch): Project {
    Project(p.id.GetOr(x.id), p.created_at.GetOr(x.created_at), p.created_by.GetOr(x.created_by),
            p.title.GetOr(x.title), p.description.GetOr(x.description),
            p.start_date.GetOr(x.start_date), p.end_date.GetOr(x.end_date),
            p.category_id.GetOr(x.category_id), p.budget.GetOr(x.budget), p.status.GetOr(x.status))
  }

  function MergeArtwork(x: Artwork, p: ArtworkPatch): Artwork {
    Artwork(p.id.GetOr(x.id), p.created_at.GetOr(x.created_at), p.created_by.GetOr(x.created_by),
            p.title.GetOr(x.title), p.author.GetOr(x.author), p.period.GetOr(x.period),
            p.origin.GetOr(x.origin), p.exhibition_number.GetOr(x.exhibition_number),
            p.reference.GetOr(x.reference), p.image_url.GetOr(x.image_url),
            p.project_id.GetOr(x.project_id), p.category_id.GetOr(x.category_id),
            p.status.GetOr(x.status))
  }

  function MergeMedia(m: Media, p: MediaPatch): Media {
    Media(p.id.GetOr(m.id), p.created_at.GetOr(m.created_at), p.created_by.GetOr(m.created_by),
          p.name.GetOr(m.name))
  }

  function MergeCategory(c: Category, p: CategoryPatch): Category {
    Category(p.id.GetOr(c.id), p.created_at.GetOr(c.created_at), Keep(p.created_by, c.created_by),
             p.name.GetOr(c.name), Keep(p.description, c.description))
  }

  function MergeHolder(h: ArtworkRightsHolder, p: HolderPatch): ArtworkRightsHolder {
    ArtworkRightsHolder(p.id.GetOr(h.id), p.created_at.GetOr(h.created_at), Keep(p.created_by, h.created_by),
                        p.artwork_id.GetOr(h.artwork_id), p.contact_id.GetOr(h.contact_id),
                        p.price.GetOr(h.price))
  }

  /** The patch the rights-holder form sends: only `contact_id` and `price`. */
  function ContactAndPrice(contact_id: Id, price: int): HolderPatch {
    HolderPatch(None, None, None, None, Some(contact_id), Some(price))
  }
}
