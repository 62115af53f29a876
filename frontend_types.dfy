/** The records the frontend receives from the API (frontend/lib/types.ts). */
module FrontendTypes {
  import opened Wrappers

  datatype User = User(
    id: string,
    username: string,
    email: string,
    role: string,
    preferredLocale: string,
    preferredTheme: string,
    emailVerified: bool,
    isActive: bool,
    createdAt: string)

  datatype Post = Post(
    id: string,
    title: string,
    content: string,
    imageUrl: Option<string>,
    authorId: string,
    createdAt: string,
    updatedAt: string)

  datatype Comment = Comment(id: string, postId: string, authorId: string, content: string, createdAt: string)

  datatype PaginatedPosts = PaginatedPosts(items: seq<Post>, page: int, pageSize: int, total: int, hasMore: bool)

  datatype AboutSection = AboutSection(id: int, slug: string, title: string, bodyMarkdown: string, updatedAt: Option<string>)

  /** The upload reply; the backend route builds it too, its own schema module having no definition of it. */
  datatype ImageUploadResponse = ImageUploadResponse(url: string, filename: string, size: int)

  /** What a handler shows with `window.alert`: a translation key passed through `t`, or a literal message. */
  datatype Alert = NoAlert | AlertKey(key: string) | AlertText(text: string)

  /** `error?.message || fallback` for a rejected request. */
  function MessageOr(message: string, fallback: string): (r: string)
    ensures message != [] ==> r == message
    ensures message == [] ==> r == fallback
  {
    if message != [] then message else fallback
  }

  function Min(a: int, b: int): (m: int)
    ensures m <= a && m <= b && (m == a || m == b)
  {
    if a <= b then a else b
  }

  /** `list.slice(0, n)` for a non-negative `n`. */
  function Take<T>(s: seq<T>, n: nat): (r: seq<T>)
    ensures |r| == Min(n, |s|)
    ensures r == s[..Min(n, |s|)]
  {
    s[..Min(n, |s|)]
  }
}
