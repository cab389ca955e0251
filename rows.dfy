/** Rows of the `dreams` and `comments` tables as the client receives them. */
module Rows {
  import opened Outcomes

  datatype Privacy = Public | Anonymous | Private

  /** A row of `dreams`. `analysis` holds a JSON value, kept here as its
      text; timestamps are kept as the strings the backend sends. */
  datatype Dream = Dream(
    id: string,
    userId: string,
    content: string,
    tags: seq<string>,
    likes: int,
    comments: int,
    createdAt: string,
    clarity: int,
    analysis: Option<string>,
    privacy: Privacy,
    imageUrl: Option<string>)

  /** The author's profile joined onto a comment by the select. */
  datatype Profile = Profile(name: string, avatarUrl: string)

  /** A row of `comments` with the joined profile. `likes` is `None` when the
      value is missing (null or undefined), which the like handler treats
      as zero. */
  datatype Comment = Comment(
    id: string,
    dreamId: string,
    userId: string,
    content: string,
    likes: Option<int>,
    createdAt: string,
    profile: Option<Profile>)
}
