/** The entity model of the directory: the closed set of categories and the
    group record (types.ts), plus the Option type the state uses for values
    that may be null. */
module Types {

  datatype Option<+T> = None | Some(value: T)

  /** The eight categories of types.ts; the labels are the enum's string values. */
  datatype Category =
    | Tech        // 'Technologie'
    | Fun         // 'Divertissement'
    | Business    // 'Business'
    | Education   // 'Éducation'
    | Social      // 'Rencontres'
    | Hobbies     // 'Loisirs'
    | Sports      // 'Sports'
    | Other       // 'Autre'

  /** The category selector of the view: the sentinel 'All' or one category. */
  datatype CategoryFilter = All | Only(category: Category)

  /** One directory entry. `createdAt` is already the epoch-millisecond number. */
  datatype Group = Group(
    id: string,
    name: string,
    description: string,
    link: string,
    category: Category,
    membersCount: int,
    isVerified: bool,
    createdAt: int)

  /** What the add/edit form submits: a group without `id` and `createdAt`. */
  datatype GroupFields = GroupFields(
    name: string,
    description: string,
    link: string,
    category: Category,
    membersCount: int,
    isVerified: bool)
}
