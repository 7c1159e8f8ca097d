/** The named constants of internal/constant that the modelled code uses. */
module Constants {

  /** The general domain exchange. */
  const ExchangeName := "temuka_exchange"

  const PostCreatedRoutingKey := "post.created"
  const PostLikedRoutingKey := "post.liked"

  /** The names of two environment variables. The upload service formats these
      names themselves into the public URL, not the variables' values. */
  const EnvAWSRegion := "AWS_REGION"
  const EnvS3Bucket := "S3_BUCKET_NAME"

  /** The search-sync exchange and routing key. The search publisher refers to
      them but the constant package does not define them, so their values are
      left open here: nothing proved depends on what they are. */
  const SearchExchange: string
  const SearchSyncRoutingKey: string
}
