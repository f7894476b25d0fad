/**
 * FieldCache: a process-wide memo of the last annotation looked up on each field,
 * keyed by "declaringClass.fieldName".
 */
module FieldCache {
  import opened Wrappers
  import opened Annotations

  type Cache = map<string, Option<Annotation>>

  /** The cache key of a field. */
  function CacheKey(f: Field): string
  {
    f.declaringClass + "." + f.name
  }

  /** Java field names contain no '.', so the key determines declaring class and name. */
  lemma CacheKeyInjective(f: Field, g: Field)
    requires '.' !in f.name && '.' !in g.name
    requires CacheKey(f) == CacheKey(g)
    ensures f.declaringClass == g.declaringClass && f.name == g.name
  {
    var s := CacheKey(f);
    assert forall i :: |g.declaringClass| < i < |s| ==> s[i] == g.name[i - |g.declaringClass| - 1];
    assert forall i :: |f.declaringClass| < i < |s| ==> s[i] == f.name[i - |f.declaringClass| - 1];
    assert s[|f.declaringClass|] == '.' && s[|g.declaringClass|] == '.';
    assert |f.name| == |g.name|;
    assert f.name == s[|s| - |f.name|..] == g.name;
    assert f.declaringClass == s[..|s| - |f.name| - 1] == g.declaringClass;
  }

  /** Among the loaded fields, a cache key names one field. */
  ghost predicate KeysIdentify(fields: set<Field>)
  {
    forall f, g :: f in fields && g in fields && CacheKey(f) == CacheKey(g) ==> f == g
  }

  /** The loaded fields are identified by declaring class and name, and names have no '.'. */
  lemma LoadedFieldsHaveDistinctKeys(fields: set<Field>)
    requires forall f :: f in fields ==> '.' !in f.name
    requires forall f, g :: f in fields && g in fields && f.declaringClass == g.declaringClass && f.name == g.name ==> f == g
    ensures KeysIdentify(fields)
  {
    forall f, g | f in fields && g in fields && CacheKey(f) == CacheKey(g) ensures f == g {
      CacheKeyInjective(f, g);
    }
  }

  /** Every non-null cache entry is the annotation of its type present on its field. */
  ghost predicate Agrees(fields: set<Field>, cache: Cache)
  {
    forall f :: f in fields && CacheKey(f) in cache && cache[CacheKey(f)].Some? ==>
      AnnotationOf(f, TypeOf(cache[CacheKey(f)].value)) == cache[CacheKey(f)]
  }

  /**
   * getAnnotation: a non-null cached annotation of the requested type is returned;
   * otherwise the annotation is read from the field and stored under the key, null or not.
   * Yields the answer and the new cache.
   */
  function Lookup(cache: Cache, f: Field, t: AnnotationType): (Option<Annotation>, Cache)
  {
    var key := CacheKey(f);
    if key in cache && cache[key].Some? && TypeOf(cache[key].value) == t then (cache[key], cache)
    else (AnnotationOf(f, t), cache[key := AnnotationOf(f, t)])
  }

  /** The cache is transparent: it answers what Field.getAnnotation would, and stays consistent. */
  lemma LookupTransparent(fields: set<Field>, cache: Cache, f: Field, t: AnnotationType)
    requires f in fields && KeysIdentify(fields) && Agrees(fields, cache)
    ensures Lookup(cache, f, t).0 == AnnotationOf(f, t)
    ensures Agrees(fields, Lookup(cache, f, t).1)
  {
    var key := CacheKey(f);
    var c' := Lookup(cache, f, t).1;
    forall g | g in fields && CacheKey(g) in c' && c'[CacheKey(g)].Some?
      ensures AnnotationOf(g, TypeOf(c'[CacheKey(g)].value)) == c'[CacheKey(g)]
    {
      if CacheKey(g) == key {
        assert g == f;
      }
    }
  }

  /**
   * A cached entry for another annotation type is replaced: a field carrying both
   * @Column and @ForeignKey makes the two lookups evict each other.
   */
  lemma LookupOfOtherTypeEvicts(cache: Cache, f: Field, t: AnnotationType)
    requires CacheKey(f) in cache && cache[CacheKey(f)].Some? && TypeOf(cache[CacheKey(f)].value) != t
    ensures Lookup(cache, f, t).1 == cache[CacheKey(f) := AnnotationOf(f, t)]
  {
  }

  /** The static cache, with the set of loaded fields it serves as ghost context. */
  class AnnotationCache {
    var cache: Cache
    ghost const fields: set<Field>

    ghost predicate Valid()
      reads this
    {
      KeysIdentify(fields) && Agrees(fields, cache)
    }

    constructor (ghost loaded: set<Field>)
      requires KeysIdentify(loaded)
      ensures Valid() && fields == loaded && cache == map[]
    {
      cache := map[];
      fields := loaded;
    }

    /** FieldCache.getAnnotation(f, type). */
    method GetAnnotation(f: Field, t: AnnotationType) returns (r: Option<Annotation>)
      requires Valid() && f in fields
      modifies this
      ensures Valid()
      ensures r == AnnotationOf(f, t)
      ensures (r, cache) == Lookup(old(cache), f, t)
    {
      LookupTransparent(fields, cache, f, t);
      var key := CacheKey(f);
      if key in cache && cache[key].Some? && TypeOf(cache[key].value) == t {
        return cache[key];
      }
      r := AnnotationOf(f, t);
      cache := cache[key := r];
    }
  }
}
