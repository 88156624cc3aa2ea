/** The backend rows the screens read and write (lib/types.ts), restricted to
    the columns the modelled logic looks at. Creation timestamps are left out. */
module Records {

  import opened Replies

  datatype Creature = Creature(
    id: string,
    name: string,
    scientificName: string,
    categoryId: string,
    points: int,
    imageUrl: Option<string>)

  datatype Category = Category(id: string, name: string)

  /** A stored sighting. `notes` may be null in the table even though the
      insert always writes a string. */
  datatype Sighting = Sighting(
    id: string,
    userId: string,
    creatureId: string,
    location: string,
    date: string,
    notes: Option<string>,
    imageUrl: Option<string>)

  /** A catalog achievement; `code` is the stable key the rules match on. */
  datatype Achievement = Achievement(
    id: string,
    code: string,
    name: string,
    description: string,
    category: string,
    iconName: string,
    points: int)

  /** One unlock event of the signed-in user. */
  datatype UserAchievement = UserAchievement(achievementId: string, unlockedAt: string)

  datatype MembershipTier = Free | Premium

  datatype Profile = Profile(
    id: string,
    email: string,
    fullName: Option<string>,
    avatarUrl: Option<string>,
    membershipTier: Option<MembershipTier>)
}
